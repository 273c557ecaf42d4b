/** Publishing the context plugin's directory: written under a staging name, renamed when whole, older
    copies and leftovers removed. A crash may stop the process after any single filesystem step. */
module PluginDir {
  import opened Base

  /** An entry of the plugins folder: a directory with its files by relative path, or anything else. */
  datatype Entry = Dir(files: map<string, string>) | Other

  type Folder = map<string, Entry>

  /** The plugins folders by session root; a root without one is absent. */
  type Disk = map<string, Folder>

  datatype File = File(path: string, text: string)

  /** How writing one file goes: it is refused before anything is written, cut off after some characters
      (the disk is full), or done. */
  datatype Write = Refused | CutOff(after: nat) | Written

  const PLUGIN_PREFIX := "mework-context-"

  /** The part of a name after one leading dot, if it has one. */
  function Undotted(entry: string): string {
    if entry != "" && entry[0] == '.' then entry[1..] else entry
  }

  /** A copy of this plugin, of whatever digest, or staging for one. */
  predicate Ours(entry: string) { PLUGIN_PREFIX <= Undotted(entry) }

  predicate Holds(entry: Entry, files: seq<File>) {
    entry.Dir? && forall i :: 0 <= i < |files| ==> files[i].path in entry.files && entry.files[files[i].path] == files[i].text
  }

  predicate IsComplete(folder: Folder, name: string, files: seq<File>) {
    name in folder && Holds(folder[name], files)
  }

  /** Complete is a directory that has every file, by its path and with its text; more may stand beside. */
  lemma CompleteMeans(folder: Folder, name: string, files: seq<File>)
    ensures IsComplete(folder, name, files) <==>
              name in folder && folder[name].Dir? &&
              forall file :: file in files ==> file.path in folder[name].files && folder[name].files[file.path] == file.text
  {
  }

  /** A name is ours with the plugin's prefix, or with it behind one dot. */
  lemma OursMeans(entry: string)
    ensures Ours(entry) <==> "mework-context-" <= entry || ".mework-context-" <= entry
  {
    if |entry| >= 16 {
      assert entry[1..][..15] == entry[..16][1..];
      assert entry[..16] == [entry[0]] + entry[1..][..15];
    }
  }

  function FolderOf(disk: Disk, root: string): Folder { if root in disk then disk[root] else map[] }

  /** `after` differs from `before` at most in the entries `touched` of the folder of `root`. */
  ghost predicate Touches(before: Disk, after: Disk, root: string, touched: set<string>) {
    && (forall r :: r != root ==> (r in after <==> r in before) && (r in before ==> after[r] == before[r]))
    && (root in before ==> root in after)
    && forall e :: e !in touched ==>
         (e in FolderOf(after, root) <==> e in FolderOf(before, root)) &&
         (e in FolderOf(before, root) ==> FolderOf(after, root)[e] == FolderOf(before, root)[e])
  }

  /** What a crash may leave: other roots and entries that are not ours are as they were; and the
      directory `name`, if it was absent or complete before, is absent or complete: still complete and
      unchanged if it was. */
  ghost predicate CrashSafe(before: Disk, after: Disk, root: string, name: string, files: seq<File>) {
    && (forall r :: r != root ==> (r in after <==> r in before) && (r in before ==> after[r] == before[r]))
    && (root in before ==> root in after)
    && (forall e :: !Ours(e) ==>
          (e in FolderOf(after, root) <==> e in FolderOf(before, root)) &&
          (e in FolderOf(before, root) ==> FolderOf(after, root)[e] == FolderOf(before, root)[e]))
    && (name !in FolderOf(before, root) ==> name !in FolderOf(after, root) || IsComplete(FolderOf(after, root), name, files))
    && (IsComplete(FolderOf(before, root), name, files) ==>
          name in FolderOf(after, root) && FolderOf(after, root)[name] == FolderOf(before, root)[name])
  }

  /** No copy of this plugin but `name` is left. */
  ghost predicate Tidy(folder: Folder, name: string) {
    forall e :: e in folder && Ours(e) ==> e == name
  }

  lemma TouchesBoth(before: Disk, mid: Disk, after: Disk, root: string, first: set<string>, second: set<string>)
    requires Touches(before, mid, root, first) && Touches(mid, after, root, second)
    ensures Touches(before, after, root, first + second)
  {
  }

  lemma TouchesOneMore(before: Disk, mid: Disk, after: Disk, root: string, touched: set<string>, entry: string)
    requires Touches(before, mid, root, touched) && Touches(mid, after, root, {entry}) && entry in touched
    ensures Touches(before, after, root, touched)
  {
  }

  /** The copies of this plugin in a folder other than `name`. */
  function StaleIn(folder: Folder, name: string): set<string> {
    set e | e in folder && Ours(e) && e != name
  }

  lemma OneEntryTouches(before: Disk, root: string, folder: Folder, entry: string)
    requires forall e :: e != entry ==>
               (e in folder <==> e in FolderOf(before, root)) &&
               (e in FolderOf(before, root) ==> folder[e] == FolderOf(before, root)[e])
    ensures Touches(before, before[root := folder], root, {entry})
  {
  }

  /** Touching only our own entries is crash-safe when the directory `name` is left alone, or is found
      absent or complete where it was not complete before. */
  lemma TouchesIsSafe(before: Disk, after: Disk, root: string, touched: set<string>, name: string, files: seq<File>)
    requires Touches(before, after, root, touched) && forall e :: e in touched ==> Ours(e)
    requires name in touched ==>
               !IsComplete(FolderOf(before, root), name, files) &&
               (name !in FolderOf(before, root) ==> name !in FolderOf(after, root) || IsComplete(FolderOf(after, root), name, files))
    ensures CrashSafe(before, after, root, name, files)
  {
  }

  /** On the way to a new directory: only it and its staging are touched, and it is absent or complete. */
  ghost predicate Underway(before: Disk, after: Disk, root: string, name: string, staging: string, files: seq<File>) {
    && Touches(before, after, root, {name, staging})
    && (name !in FolderOf(after, root) || IsComplete(FolderOf(after, root), name, files))
  }

  lemma StillUnderway(before: Disk, mid: Disk, after: Disk, root: string, name: string, staging: string, files: seq<File>)
    requires Underway(before, mid, root, name, staging, files) && Touches(mid, after, root, {staging}) && name != staging
    ensures Underway(before, after, root, name, staging, files)
  {
  }

  lemma RenameIsUnderway(before: Disk, mid: Disk, root: string, name: string, staging: string, files: seq<File>)
    requires Underway(before, mid, root, name, staging, files) && name != staging
    requires root in mid && staging in mid[root] && Holds(mid[root][staging], files)
    ensures var after := mid[root := mid[root][name := mid[root][staging]] - {staging}];
            Underway(before, after, root, name, staging, files) && IsComplete(after[root], name, files)
  {
  }

  lemma UnderwayIsSafe(before: Disk, mid: Disk, after: Disk, root: string, name: string, staging: string, files: seq<File>)
    requires Touches(before, mid, root, {name}) && Underway(mid, after, root, name, staging, files)
    requires Ours(name) && Ours(staging) && !IsComplete(FolderOf(before, root), name, files)
    ensures Touches(before, after, root, {name, staging}) && CrashSafe(before, after, root, name, files)
  {
  }

  /** Afterwards touching only other entries of ours stays crash-safe. */
  lemma SafeThenTouches(before: Disk, mid: Disk, after: Disk, root: string, touched: set<string>, name: string, files: seq<File>)
    requires CrashSafe(before, mid, root, name, files) && Touches(mid, after, root, touched)
    requires forall e :: e in touched ==> Ours(e) && e != name
    ensures CrashSafe(before, after, root, name, files)
  {
  }

  /** The directory `name` is absent or complete. */
  predicate Whole(disk: Disk, root: string, name: string, files: seq<File>) {
    name !in FolderOf(disk, root) || IsComplete(FolderOf(disk, root), name, files)
  }

  /** The directory `name` is as it was if it was complete, and so is every entry that is not ours. */
  ghost predicate Untouched(before: Disk, after: Disk, root: string, name: string, files: seq<File>) {
    && (IsComplete(FolderOf(before, root), name, files) ==>
          name in FolderOf(after, root) && FolderOf(after, root)[name] == FolderOf(before, root)[name])
    && forall e :: !Ours(e) ==>
         (e in FolderOf(after, root) <==> e in FolderOf(before, root)) &&
         (e in FolderOf(before, root) ==> FolderOf(after, root)[e] == FolderOf(before, root)[e])
  }

  /** Each disk follows the one before crash-safely. */
  ghost predicate Chain(disks: seq<Disk>, root: string, name: string, files: seq<File>) {
    forall i {:trigger disks[i]} :: 0 < i < |disks| ==> CrashSafe(disks[i - 1], disks[i], root, name, files)
  }

  /** Crash-safe steps add up: a directory absent or complete at first is never seen otherwise. */
  lemma {:induction false} CrashesNeverTear(disks: seq<Disk>, root: string, name: string, files: seq<File>, k: nat)
    requires Chain(disks, root, name, files) && k < |disks| && Whole(disks[0], root, name, files)
    ensures Whole(disks[k], root, name, files) && Untouched(disks[0], disks[k], root, name, files)
  {
    if k > 0 {
      CrashesNeverTear(disks, root, name, files, k - 1);
      assert CrashSafe(disks[k - 1], disks[k], root, name, files);
    }
  }

  /** Nothing but a directory stands where staging goes. */
  predicate CanStage(disk: Disk, root: string, staging: string) {
    staging in FolderOf(disk, root) ==> FolderOf(disk, root)[staging].Dir?
  }

  /** The writes of all files, and the rename behind them, are done. */
  predicate AllWritten(writes: nat -> Write, count: nat) { forall i :: 0 <= i <= count ==> writes(i).Written? }

  // ---- the writer as it runs ----

  lemma StagingIsOurs(name: string, uuid: string)
    requires PLUGIN_PREFIX <= name
    ensures Ours(name) && Ours("." + name + "." + uuid) && name != "." + name + "." + uuid
  {
  }

  lemma Overwrites(before: Disk, root: string, last: Folder, next: Folder)
    ensures before[root := last][root := next] == before[root := next]
  {
  }

  class Publisher {
    const files: seq<File>
    const name: string
    var disk: Disk
    /** The roots published by this process. */
    var materialized: set<string>
    /** Every state the disk has gone through: where a crash may leave it. */
    var trace: seq<Disk>

    constructor (files: seq<File>, digest: string, disk: Disk)
      requires |files| > 0 && forall i, j :: 0 <= i < j < |files| ==> files[i].path != files[j].path
      ensures Valid() && this.disk == disk && materialized == {} && this.files == files && name == PLUGIN_PREFIX + digest
    {
      this.files, this.name, this.disk, materialized, trace := files, PLUGIN_PREFIX + digest, disk, {}, [disk];
    }

    /** The name is this plugin's, and there are files, with different paths. */
    ghost predicate Valid()
    {
      PLUGIN_PREFIX <= name && |files| > 0 && forall i, j :: 0 <= i < j < |files| ==> files[i].path != files[j].path
    }

    /** A root published by this process has no other copy of the plugin left. */
    ghost predicate Kept()
      reads this
    {
      forall root :: root in materialized ==> Tidy(FolderOf(disk, root), name)
    }

    ghost predicate Since(start: nat, before: Disk, root: string, touched: set<string>)
      reads this
    {
      start <= |trace| && forall i :: start <= i < |trace| ==> Touches(before, trace[i], root, touched)
    }

    /** One filesystem step. */
    method Step(root: string, folder: Folder)
      modifies `disk, `trace
      ensures disk == old(disk)[root := folder] && trace == old(trace) + [disk]
    {
      disk := disk[root := folder];
      trace := trace + [disk];
    }

    /** One filesystem step that changes one entry, counted from an earlier state. */
    method StepIn(root: string, entry: string, folder: Folder, ghost before: Disk, ghost start: nat)
      requires Touches(before, disk, root, {entry}) && Since(start, before, root, {entry})
      requires forall e :: e != entry ==>
                 (e in folder <==> e in FolderOf(disk, root)) &&
                 (e in FolderOf(disk, root) ==> folder[e] == FolderOf(disk, root)[e])
      modifies `disk, `trace
      ensures disk == old(disk)[root := folder] && trace == old(trace) + [disk]
      ensures Touches(before, disk, root, {entry}) && Since(start, before, root, {entry})
    {
      OneEntryTouches(disk, root, folder, entry);
      TouchesBoth(before, disk, disk[root := folder], root, {entry}, {entry});
      assert {entry} + {entry} == {entry};
      Step(root, folder);
    }

    /** Deletes the files of a directory one by one, in any order. */
    method EmptyDir(root: string, entry: string)
      requires root in disk && entry in disk[root] && disk[root][entry].Dir?
      modifies `disk, `trace
      ensures disk == old(disk)[root := old(disk[root])[entry := Dir(map[])]]
      ensures old(trace) <= trace && Since(|old(trace)|, old(disk), root, {entry}) && Touches(old(disk), disk, root, {entry})
      ensures old(disk[root][entry]).files != map[] ==> |trace| > |old(trace)| && trace[|trace| - 1] == disk
    {
      var folder := disk[root];
      ghost var before, start := disk, |trace|;
      var left := folder[entry].files;
      assert folder[entry := Dir(left)] == folder && disk[root := folder] == disk;
      while left.Keys != {}
        invariant disk == before[root := folder[entry := Dir(left)]]
        invariant old(trace) <= trace && Since(start, before, root, {entry}) && Touches(before, disk, root, {entry})
        invariant left == folder[entry].files || (|trace| > start && trace[|trace| - 1] == disk)
        decreases |left.Keys|
      {
        var path :| path in left.Keys;
        assert (left - {path}).Keys == left.Keys - {path};
        ghost var last := folder[entry := Dir(left)];
        left := left - {path};
        StepIn(root, entry, folder[entry := Dir(left)], before, start);
        Overwrites(before, root, last, folder[entry := Dir(left)]);
      }
      assert left == map[];
    }

    /** Deletes an entry with everything under it. An older copy is seen incomplete on its way out. */
    method RemoveTree(root: string, entry: string)
      requires root in disk
      modifies `disk, `trace
      ensures disk == old(disk)[root := old(disk[root]) - {entry}]
      ensures old(trace) <= trace && Since(|old(trace)|, old(disk), root, {entry})
      ensures entry !in old(disk[root]) ==> trace == old(trace)
      ensures entry in old(disk[root]) && old(disk[root][entry]).Dir? && old(disk[root][entry]).files != map[] ==>
                exists i :: |old(trace)| <= i < |trace| && trace[i] == old(disk)[root := old(disk[root])[entry := Dir(map[])]]
    {
      var folder := disk[root];
      if entry !in folder {
        assert folder - {entry} == folder && disk == disk[root := folder];
        return;
      }
      ghost var before, start := disk, |trace|;
      if folder[entry].Dir? { EmptyDir(root, entry); }
      ghost var seen := trace;
      StepIn(root, entry, folder - {entry}, before, start);
      if folder[entry].Dir? && folder[entry].files != map[] {
        assert trace[|seen| - 1] == before[root := folder[entry := Dir(map[])]];
      }
    }

    /** Writes the first `upTo` characters of one file under `staging`, one at a time: a crash may leave
        any prefix of it. */
    method WriteText(root: string, staging: string, file: File, upTo: nat)
      requires root in disk && staging in disk[root] && disk[root][staging].Dir? && upTo <= |file.text|
      modifies `disk, `trace
      ensures root in disk && staging in disk[root] && disk[root][staging].Dir?
      ensures disk[root][staging].files == old(disk[root][staging].files)[file.path := file.text[..upTo]]
      ensures Touches(old(disk), disk, root, {staging})
      ensures old(trace) <= trace && Since(|old(trace)|, old(disk), root, {staging})
    {
      ghost var before, start := disk, |trace|;
      var folder, made := disk[root], disk[root][staging].files;
      StepIn(root, staging, folder[staging := Dir(made[file.path := file.text[..0]])], before, start);
      for n := 0 to upTo
        invariant disk == before[root := folder[staging := Dir(made[file.path := file.text[..n]])]]
        invariant old(trace) <= trace && Since(start, before, root, {staging}) && Touches(before, disk, root, {staging})
      {
        ghost var last := folder[staging := Dir(made[file.path := file.text[..n]])];
        StepIn(root, staging, folder[staging := Dir(made[file.path := file.text[..n + 1]])], before, start);
        Overwrites(before, root, last, folder[staging := Dir(made[file.path := file.text[..n + 1]])]);
      }
    }

    /** Makes the directory of a file under `staging` and writes the file, as far as `how` lets it. */
    method WriteFile(root: string, staging: string, file: File, how: Write) returns (ok: bool)
      modifies `disk, `trace
      ensures Touches(old(disk), disk, root, {staging})
      ensures old(trace) <= trace && Since(|old(trace)|, old(disk), root, {staging})
      ensures ok <==> how.Written? && CanStage(old(disk), root, staging)
      ensures ok ==> root in disk && staging in disk[root] && disk[root][staging].Dir? &&
                     var earlier := if staging in FolderOf(old(disk), root) && FolderOf(old(disk), root)[staging].Dir?
                                 then FolderOf(old(disk), root)[staging].files else map[];
                     disk[root][staging].files == earlier[file.path := file.text]
    {
      ghost var before, start := disk, |trace|;
      var folder := FolderOf(disk, root);
      if how.Refused? || (staging in folder && !folder[staging].Dir?) { return false; }
      var made := if staging in folder then folder[staging].files else map[];
      StepIn(root, staging, folder[staging := Dir(made)], before, start);
      ghost var mid, from := disk, |trace|;
      var upTo := if how.CutOff? && how.after < |file.text| then how.after else |file.text|;
      WriteText(root, staging, file, upTo);
      assert file.text[..|file.text|] == file.text;
      forall i | from <= i < |trace| { TouchesOneMore(before, mid, trace[i], root, {staging}, staging); }
      TouchesOneMore(before, mid, disk, root, {staging}, staging);
      ok := how.Written?;
    }

    /** Writes every file under `staging`, until one fails. */
    method WriteFiles(root: string, staging: string, writes: nat -> Write) returns (ok: bool)
      requires Valid()
      modifies `disk, `trace
      ensures Touches(old(disk), disk, root, {staging})
      ensures old(trace) <= trace && Since(|old(trace)|, old(disk), root, {staging})
      ensures ok <==> (forall i :: 0 <= i < |files| ==> writes(i).Written?) && CanStage(old(disk), root, staging)
      ensures ok ==> root in disk && staging in disk[root] && Holds(disk[root][staging], files)
    {
      ghost var before, start := disk, |trace|;
      for i := 0 to |files|
        invariant Touches(before, disk, root, {staging})
        invariant old(trace) <= trace && Since(start, before, root, {staging})
        invariant i == 0 ==> disk == before
        invariant i > 0 ==> CanStage(before, root, staging) && root in disk && staging in disk[root] && disk[root][staging].Dir?
        invariant forall k :: 0 <= k < i ==> writes(k).Written?
        invariant forall k :: 0 <= k < i ==>
                    files[k].path in disk[root][staging].files && disk[root][staging].files[files[k].path] == files[k].text
      {
        ghost var mid, from := disk, |trace|;
        ok := WriteFile(root, staging, files[i], writes(i));
        forall j | from <= j < |trace| { TouchesOneMore(before, mid, trace[j], root, {staging}, staging); }
        TouchesOneMore(before, mid, disk, root, {staging}, staging);
        if !ok { return; }
      }
      ok := true;
    }

    /** Removes every copy of the plugin but the current one, in any order. */
    method RemoveStale(root: string)
      requires root in disk
      modifies `disk, `trace
      ensures root in disk && Tidy(disk[root], name)
      ensures Touches(old(disk), disk, root, StaleIn(old(disk[root]), name))
      ensures old(trace) <= trace && Since(|old(trace)|, old(disk), root, StaleIn(old(disk[root]), name))
    {
      ghost var stale := StaleIn(disk[root], name);
      var entries := disk[root].Keys;
      while entries != {}
        invariant root in disk && disk[root].Keys <= old(disk[root]).Keys && entries <= old(disk[root]).Keys
        invariant Touches(old(disk), disk, root, stale)
        invariant old(trace) <= trace && Since(|old(trace)|, old(disk), root, stale)
        invariant forall e :: e in disk[root] && Ours(e) && e != name ==> e in entries
        decreases |entries|
      {
        var entry :| entry in entries;
        entries := entries - {entry};
        if entry == name || !Ours(entry) { continue; }
        ghost var mid, from := disk, |trace|;
        RemoveTree(root, entry);
        forall i | from <= i < |trace|
          ensures Touches(old(disk), trace[i], root, stale)
        {
          TouchesOneMore(old(disk), mid, trace[i], root, stale, entry);
        }
        TouchesOneMore(old(disk), mid, disk, root, stale, entry);
      }
    }

    /** Stages the directory and renames it into place. */
    method StageAndRename(root: string, staging: string, writes: nat -> Write) returns (ok: bool)
      requires Valid() && name !in FolderOf(disk, root) && name != staging
      modifies `disk, `trace
      ensures Underway(old(disk), disk, root, name, staging, files)
      ensures old(trace) <= trace
      ensures forall i :: |old(trace)| <= i < |trace| ==> Underway(old(disk), trace[i], root, name, staging, files)
      ensures ok <==> AllWritten(writes, |files|) && CanStage(old(disk), root, staging)
      ensures ok ==> root in disk && IsComplete(disk[root], name, files)
    {
      ghost var d1 := disk;
      ok := WriteFiles(root, staging, writes);
      forall i | |old(trace)| <= i < |trace| { StillUnderway(d1, d1, trace[i], root, name, staging, files); }
      StillUnderway(d1, d1, disk, root, name, staging, files);
      if !ok || !writes(|files|).Written? { return false; }
      RenameIsUnderway(d1, disk, root, name, staging, files);
      Step(root, disk[root][name := disk[root][staging]] - {staging});
    }

    /** Stages the directory, renames it into place, and removes what is left of the staging. */
    method Stage(root: string, staging: string, writes: nat -> Write) returns (ok: bool)
      requires Valid() && name !in FolderOf(disk, root) && name != staging
      modifies `disk, `trace
      ensures Underway(old(disk), disk, root, name, staging, files) && staging !in FolderOf(disk, root)
      ensures old(trace) <= trace
      ensures forall i :: |old(trace)| <= i < |trace| ==> Underway(old(disk), trace[i], root, name, staging, files)
      ensures ok <==> AllWritten(writes, |files|) && CanStage(old(disk), root, staging)
      ensures ok ==> root in disk && IsComplete(disk[root], name, files)
    {
      ok := StageAndRename(root, staging, writes);
      ghost var d2, t2 := disk, |trace|;
      if root in disk { RemoveTree(root, staging); }
      StillUnderway(old(disk), d2, disk, root, name, staging, files);
      forall i | t2 <= i < |trace| { StillUnderway(old(disk), d2, trace[i], root, name, staging, files); }
    }

    /** Writes the directory anew. On a failure nothing of it is left. */
    method Publish(root: string, uuid: string, writes: nat -> Write) returns (ok: bool)
      requires Valid() && !IsComplete(FolderOf(disk, root), name, files)
      modifies `disk, `trace
      ensures var staging := "." + name + "." + uuid; Touches(old(disk), disk, root, {name, staging}) && staging !in FolderOf(disk, root)
      ensures CrashSafe(old(disk), disk, root, name, files)
      ensures old(trace) <= trace
      ensures forall i :: |old(trace)| <= i < |trace| ==> CrashSafe(old(disk), trace[i], root, name, files)
      ensures ok <==> AllWritten(writes, |files|) && CanStage(old(disk), root, "." + name + "." + uuid)
      ensures ok ==> root in disk && IsComplete(disk[root], name, files)
    {
      var staging := "." + name + "." + uuid;
      StagingIsOurs(name, uuid);
      ghost var d0 := disk;
      if root in disk { RemoveTree(root, name); }
      ghost var d1, t1 := disk, |trace|;
      forall i | |old(trace)| <= i < |trace|
        ensures CrashSafe(d0, trace[i], root, name, files)
      {
        TouchesIsSafe(d0, trace[i], root, {name}, name, files);
      }
      ok := Stage(root, staging, writes);
      UnderwayIsSafe(d0, d1, disk, root, name, staging, files);
      forall i | t1 <= i < |trace|
        ensures CrashSafe(d0, trace[i], root, name, files)
      {
        UnderwayIsSafe(d0, d1, trace[i], root, name, staging, files);
      }
    }

    /** Publishes under `root` and returns the directory's path, or nothing on a failure. `uuid` names
        the staging directory, `writes` tells how each write, and then the rename, goes. */
    method ContextPluginDir(root: string, uuid: string, writes: nat -> Write) returns (dir: Option<string>)
      requires Valid()
      modifies this
      ensures Valid() && old(trace) <= trace
      ensures forall i :: |old(trace)| <= i < |trace| ==> CrashSafe(old(disk), trace[i], root, name, files)
      ensures dir.Some? <==>
                IsComplete(FolderOf(old(disk), root), name, files) ||
                (AllWritten(writes, |files|) && CanStage(old(disk), root, "." + name + "." + uuid))
      ensures dir.Some? ==> dir.value == root + "/plugins/" + name && IsComplete(FolderOf(disk, root), name, files)
      ensures dir.Some? ==>
                root in disk && name in disk[root] && disk[root][name].Dir? &&
                forall i :: 0 <= i < |files| ==>
                  files[i].path in disk[root][name].files && disk[root][name].files[files[i].path] == files[i].text
      ensures dir.Some? && !(root in old(materialized) && IsComplete(FolderOf(old(disk), root), name, files)) ==>
                Tidy(FolderOf(disk, root), name)
      ensures dir.Some? && root in old(materialized) && IsComplete(FolderOf(old(disk), root), name, files) ==> disk == old(disk)
      ensures CrashSafe(old(disk), disk, root, name, files)
      ensures materialized == if dir.Some? then old(materialized) + {root} else old(materialized)
      ensures old(Kept()) ==> Kept() && (dir.Some? ==> Tidy(FolderOf(disk, root), name))
    {
      var path := root + "/plugins/" + name;
      if root in materialized && IsComplete(FolderOf(disk, root), name, files) {
        return Some(path);
      }
      ghost var d0, start := disk, |trace|;
      if !IsComplete(FolderOf(disk, root), name, files) {
        var ok := Publish(root, uuid, writes);
        if !ok { return None; }
      }
      ghost var d1, t1 := disk, |trace|;
      assert root in disk && IsComplete(disk[root], name, files);
      ghost var stale := StaleIn(disk[root], name);
      RemoveStale(root);
      SafeThenTouches(d0, d1, disk, root, stale, name, files);
      forall i | t1 <= i < |trace|
        ensures CrashSafe(d0, trace[i], root, name, files)
      {
        assert Touches(d1, trace[i], root, stale);
        SafeThenTouches(d0, d1, trace[i], root, stale, name, files);
      }
      materialized := materialized + {root};
      dir := Some(path);
    }
  }

  /** One publication in the life of a session folder: its staging name, how its writes go, and after how
      many filesystem steps the process is stopped, if it is. */
  datatype Attempt = Attempt(uuid: string, writes: nat -> Write, stopped: Option<nat>)

  /** The attempt is not stopped, and nothing keeps it from writing. */
  predicate Succeeds(attempt: Attempt, disk: Disk, root: string, name: string, count: nat) {
    attempt.stopped.None? && AllWritten(attempt.writes, count) && CanStage(disk, root, "." + name + "." + attempt.uuid)
  }

  /** An attempt that nothing stops or refuses leaves the directory complete and no other copy beside it. */
  ghost predicate Lands(attempt: Attempt, before: Disk, after: Disk, root: string, name: string, files: seq<File>) {
    Succeeds(attempt, before, root, name, |files|) ==>
      IsComplete(FolderOf(after, root), name, files) && Tidy(FolderOf(after, root), name)
  }

  ghost predicate AllLand(attempts: seq<Attempt>, disks: seq<Disk>, root: string, name: string, files: seq<File>)
    requires |disks| <= |attempts| + 1
  {
    forall k {:trigger disks[k]} :: 0 < k < |disks| ==> Lands(attempts[k - 1], disks[k - 1], disks[k], root, name, files)
  }

  lemma AllLandOn(attempts: seq<Attempt>, disks: seq<Disk>, next: Disk, root: string, name: string, files: seq<File>)
    requires 0 < |disks| <= |attempts| && AllLand(attempts, disks, root, name, files)
    requires Lands(attempts[|disks| - 1], disks[|disks| - 1], next, root, name, files)
    ensures AllLand(attempts, disks + [next], root, name, files)
  {
  }

  /** Publishes once more and returns what that leaves, with the process that goes on from there. */
  method Publication(publisher: Publisher, root: string, attempt: Attempt) returns (next: Disk, successor: Publisher)
    requires publisher.Valid() && publisher.Kept()
    modifies publisher
    ensures Lands(attempt, old(publisher.disk), next, root, publisher.name, publisher.files)
    ensures successor.Kept()
    ensures CrashSafe(old(publisher.disk), next, root, publisher.name, publisher.files)
    ensures successor == publisher || fresh(successor)
    ensures successor.Valid() && successor.files == publisher.files && successor.name == publisher.name && successor.disk == next
  {
    var from := |publisher.trace|;
    var dir := publisher.ContextPluginDir(root, attempt.uuid, attempt.writes);
    next, successor := publisher.disk, publisher;
    if attempt.stopped.Some? && from + attempt.stopped.value < |publisher.trace| {
      next := publisher.trace[from + attempt.stopped.value];
      successor := new Publisher(publisher.files, publisher.name[|PLUGIN_PREFIX|..], next);
      Rejoins(publisher.name, PLUGIN_PREFIX);
    }
  }

  lemma ChainOn(disks: seq<Disk>, next: Disk, root: string, name: string, files: seq<File>)
    requires disks != [] && Chain(disks, root, name, files) && CrashSafe(disks[|disks| - 1], next, root, name, files)
    ensures Chain(disks + [next], root, name, files)
  {
  }

  /** Publishes again and again, each time from where the last publication ended or the crash that
      stopped it left the disk; a stopped process is replaced by a new one. Whatever was absent or
      complete at first is so in every state a crash leaves: a complete directory is never touched again,
      and entries that are not ours are never touched at all. And each attempt that nothing stops or
      refuses leaves the directory complete and no other copy or staging beside it. */
  method Survive(disk: Disk, files: seq<File>, digest: string, root: string, attempts: seq<Attempt>) returns (disks: seq<Disk>)
    requires |files| > 0 && forall i, j :: 0 <= i < j < |files| ==> files[i].path != files[j].path
    requires Whole(disk, root, PLUGIN_PREFIX + digest, files)
    ensures |disks| == |attempts| + 1 && disks[0] == disk
    ensures AllLand(attempts, disks, root, PLUGIN_PREFIX + digest, files)
    ensures forall k :: 0 <= k < |disks| ==>
              Whole(disks[k], root, PLUGIN_PREFIX + digest, files) && Untouched(disk, disks[k], root, PLUGIN_PREFIX + digest, files)
  {
    var name := PLUGIN_PREFIX + digest;
    disks := [disk];
    var publisher := new Publisher(files, digest, disk);
    for k := 0 to |attempts|
      invariant |disks| == k + 1 && disks[0] == disk && fresh(publisher)
      invariant publisher.Valid() && publisher.files == files && publisher.name == name && publisher.disk == disks[k]
      invariant Chain(disks, root, name, files) && publisher.Kept() && AllLand(attempts, disks, root, name, files)
    {
      var next, successor := Publication(publisher, root, attempts[k]);
      ChainOn(disks, next, root, name, files);
      AllLandOn(attempts, disks, next, root, name, files);
      disks, publisher := disks + [next], successor;
    }
    forall k | 0 <= k < |disks|
      ensures Whole(disks[k], root, name, files) && Untouched(disk, disks[k], root, name, files)
    {
      CrashesNeverTear(disks, root, name, files, k);
    }
  }
}
