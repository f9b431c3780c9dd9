/** Saving a configuration file by file, and what a save that is cut off leaves for the next one. */
module SaveRecovery {
  import opened ConfigLines
  import opened ManagedBlock
  import opened EffectivePreview

  type Files = map<string, string>

  /** A managed file and the text it is to hold. */
  datatype Job = Job(path: string, content: string)

  function Tmp(path: string): string {
    path + ".tmp"
  }

  function BackupPath(path: string): string {
    path + ".backup"
  }

  function Backed(files: Files, path: string): Files {
    if path in files then files[BackupPath(path) := files[path]] else files
  }

  /** A new text in place, and no temporary file left. */
  function Replaced(files: Files, path: string, content: string): Files {
    (files - {Tmp(path)})[path := content]
  }

  predicate Done(files: Files, job: Job) {
    ReadOrEmpty(files, job.path) == job.content
  }

  function SaveFile(files: Files, job: Job): Files {
    if Done(files, job) then files else Replaced(Backed(files, job.path), job.path, job.content)
  }

  function SaveAll(files: Files, jobs: seq<Job>): Files
    decreases jobs
  {
    if jobs == [] then files else SaveAll(SaveFile(files, jobs[0]), jobs[1..])
  }

  function SaveMain(files: Files, main: string, dir: string): Files {
    var current := ReadOrEmpty(files, main);
    var text := EnsureBlock(current, dir);
    if text == current then files else Replaced(files, main, text)
  }

  function FullSave(files: Files, jobs: seq<Job>, main: string, dir: string): Files {
    SaveMain(SaveAll(files, jobs), main, dir)
  }

  // ---------- Saves that are cut off ----------

  /** Writing a file leaves it alone, or cuts its text anywhere. */
  ghost predicate TornWrite(s: Files, t: Files, path: string, content: string) {
    t == s || exists n :: 0 <= n <= |content| && t == s[path := content[..n]]
  }

  /** Only renaming the temporary file changes the target. */
  ghost predicate CutAtomic(s: Files, t: Files, path: string, content: string) {
    TornWrite(s, t, Tmp(path), content) || t == Replaced(s, path, content)
  }

  ghost predicate CutFile(s: Files, t: Files, job: Job) {
    || t == s
    || (!Done(s, job) && job.path in s && TornWrite(s, t, BackupPath(job.path), s[job.path]))
    || (!Done(s, job) && CutAtomic(Backed(s, job.path), t, job.path, job.content))
  }

  ghost predicate CutSave(s: Files, t: Files, jobs: seq<Job>)
    decreases jobs
  {
    if jobs == [] then t == s else CutFile(s, t, jobs[0]) || CutSave(SaveFile(s, jobs[0]), t, jobs[1..])
  }

  ghost predicate CutMain(s: Files, t: Files, main: string, dir: string) {
    var current := ReadOrEmpty(s, main);
    t == s || (EnsureBlock(current, dir) != current && CutAtomic(s, t, main, EnsureBlock(current, dir)))
  }

  /** The states in which a save can be cut off, from before its first step to after its last. */
  ghost predicate CutFull(s: Files, t: Files, jobs: seq<Job>, main: string, dir: string) {
    CutSave(s, t, jobs) || CutMain(SaveAll(s, jobs), t, main, dir)
  }

  // ---------- Paths ----------

  function Touched(job: Job): set<string> {
    {job.path, Tmp(job.path), BackupPath(job.path)}
  }

  ghost predicate Apart(jobs: seq<Job>) {
    forall i, j :: 0 <= i < j < |jobs| ==> Touched(jobs[i]) !! Touched(jobs[j])
  }

  ghost predicate MainApart(jobs: seq<Job>, main: string) {
    forall job :: job in jobs ==> main !in Touched(job) && Tmp(main) !in Touched(job)
  }

  /** A path that the two states agree on. */
  predicate Same(s: Files, t: Files, path: string) {
    (path in s <==> path in t) && (path in s ==> s[path] == t[path])
  }

  lemma PathsOf(path: string)
    ensures path != Tmp(path) && path != BackupPath(path) && Tmp(path) != BackupPath(path)
  {
    assert |path| != |Tmp(path)| && |path| != |BackupPath(path)| && |Tmp(path)| != |BackupPath(path)|;
  }

  lemma FileFrame(s: Files, t: Files, job: Job, path: string)
    requires CutFile(s, t, job) || t == SaveFile(s, job)
    requires path !in Touched(job)
    ensures Same(s, t, path)
  {
  }

  lemma {:induction false} SaveFrame(s: Files, t: Files, jobs: seq<Job>, path: string)
    requires CutSave(s, t, jobs) || t == SaveAll(s, jobs)
    requires forall job :: job in jobs ==> path !in Touched(job)
    ensures Same(s, t, path)
    decreases jobs
  {
    if jobs != [] {
      assert jobs[0] in jobs;
      if CutFile(s, t, jobs[0]) {
        FileFrame(s, t, jobs[0], path);
      } else {
        FileFrame(s, SaveFile(s, jobs[0]), jobs[0], path);
        SaveFrame(SaveFile(s, jobs[0]), t, jobs[1..], path);
      }
    }
  }

  lemma NotTouched(jobs: seq<Job>, path: string)
    requires jobs != [] && Apart(jobs) && path in Touched(jobs[0])
    ensures forall job :: job in jobs[1..] ==> path !in Touched(job)
    ensures Apart(jobs[1..])
  {
    var rest := jobs[1..];
    forall job | job in rest ensures path !in Touched(job) {
      var i :| 0 <= i < |rest| && rest[i] == job;
      assert rest[i] == jobs[i + 1] && Touched(jobs[0]) !! Touched(jobs[i + 1]);
    }
    forall i, j | 0 <= i < j < |rest| ensures Touched(rest[i]) !! Touched(rest[j]) {
      assert Touched(jobs[i + 1]) !! Touched(jobs[j + 1]);
    }
  }

  // ---------- One file ----------

  /** Wherever the save of one file was cut off, saving it again ends as the uncut save would. */
  lemma FileResumes(s: Files, t: Files, job: Job)
    requires CutFile(s, t, job)
    ensures SaveFile(t, job) == SaveFile(s, job)
  {
    var p, c := job.path, job.content;
    PathsOf(p);
    if t != s && !Done(s, job) {
      if p in s && TornWrite(s, t, BackupPath(p), s[p]) {
        assert Same(s, t, p);
        assert Backed(t, p) == Backed(s, p);
      } else {
        var b := Backed(s, p);
        if TornWrite(b, t, Tmp(p), c) {
          assert Same(s, t, p);
          assert p in s ==> b[BackupPath(p)] == s[p];
          assert Backed(t, p) - {Tmp(p)} == b - {Tmp(p)};
        } else {
          assert t == Replaced(b, p, c) && Done(t, job);
        }
      }
    }
  }

  lemma SavedIsDone(s: Files, job: Job)
    ensures Done(SaveFile(s, job), job)
  {
  }

  // ---------- The managed files ----------

  /** The cut save of all files resumes in the same way. */
  lemma {:induction false} SaveResumes(s: Files, t: Files, jobs: seq<Job>)
    requires CutSave(s, t, jobs) && Apart(jobs)
    ensures SaveAll(t, jobs) == SaveAll(s, jobs)
    decreases jobs
  {
    if jobs != [] {
      var job, rest := jobs[0], jobs[1..];
      if CutFile(s, t, job) {
        FileResumes(s, t, job);
      } else {
        NotTouched(jobs, job.path);
        SaveResumes(SaveFile(s, job), t, rest);
        SavedIsDone(s, job);
        SaveFrame(SaveFile(s, job), t, rest, job.path);
        assert SaveFile(t, job) == t;
      }
    }
  }

  lemma {:induction false} AllDone(s: Files, jobs: seq<Job>)
    requires Apart(jobs)
    ensures forall job :: job in jobs ==> Done(SaveAll(s, jobs), job)
    decreases jobs
  {
    if jobs != [] {
      var job, rest := jobs[0], jobs[1..];
      NotTouched(jobs, job.path);
      AllDone(SaveFile(s, job), rest);
      SavedIsDone(s, job);
      SaveFrame(SaveFile(s, job), SaveAll(s, jobs), rest, job.path);
    }
  }

  lemma {:induction false} NothingToDo(s: Files, jobs: seq<Job>)
    requires forall job :: job in jobs ==> Done(s, job)
    ensures SaveAll(s, jobs) == s
  {
    if jobs != [] {
      assert jobs[0] in jobs;
      NothingToDo(s, jobs[1..]);
    }
  }

  // ---------- What one complete save leaves ----------

  /** What saving a page does to its file, its backup and its temporary file: an unchanged text leaves
      all three alone; a changed one is in place, the former text is in the backup if there was a
      file, and no temporary file is left. */
  predicate Kept(s: Files, t: Files, path: string, text: string) {
    if ReadOrEmpty(s, path) == text then
      Same(s, t, path) && Same(s, t, path + ".backup") && Same(s, t, path + ".tmp")
    else
      && path in t && t[path] == text && path + ".tmp" !in t
      && if path in s then path + ".backup" in t && t[path + ".backup"] == s[path] else Same(s, t, path + ".backup")
  }

  lemma FileIsKept(s: Files, job: Job)
    ensures Kept(s, SaveFile(s, job), job.path, job.content)
  {
    PathsOf(job.path);
  }

  /** Saving a file depends only on the paths it touches. */
  lemma SaveFileIsLocal(s: Files, t: Files, job: Job, path: string)
    requires (forall q :: q in Touched(job) ==> Same(s, t, q)) && path in Touched(job)
    ensures Same(SaveFile(s, job), SaveFile(t, job), path)
  {
    PathsOf(job.path);
    assert Same(s, t, job.path) && Same(s, t, Tmp(job.path)) && Same(s, t, BackupPath(job.path));
  }

  /** In a run over separate files each is saved as if it were alone. */
  lemma {:induction false} SaveAllAt(s: Files, jobs: seq<Job>, i: nat, path: string)
    requires Apart(jobs) && i < |jobs| && path in Touched(jobs[i])
    ensures Same(SaveAll(s, jobs), SaveFile(s, jobs[i]), path)
    decreases jobs
  {
    var first, rest := SaveFile(s, jobs[0]), jobs[1..];
    if i == 0 {
      NotTouched(jobs, path);
      SaveFrame(first, SaveAll(first, rest), rest, path);
    } else {
      assert rest[i - 1] == jobs[i] && Touched(jobs[0]) !! Touched(jobs[i]);
      NotTouched(jobs, jobs[0].path);
      SaveAllAt(first, rest, i - 1, path);
      forall q | q in Touched(jobs[i]) ensures Same(s, first, q) {
        FileFrame(s, first, jobs[0], q);
      }
      SaveFileIsLocal(s, first, jobs[i], path);
    }
  }

  lemma AllAreKept(s: Files, jobs: seq<Job>, i: nat)
    requires Apart(jobs) && i < |jobs|
    ensures Kept(s, SaveAll(s, jobs), jobs[i].path, jobs[i].content)
  {
    var job := jobs[i];
    FileIsKept(s, job);
    SaveAllAt(s, jobs, i, job.path);
    SaveAllAt(s, jobs, i, Tmp(job.path));
    SaveAllAt(s, jobs, i, BackupPath(job.path));
  }

  lemma MainSaveFrame(s: Files, main: string, dir: string, path: string)
    requires path != main && path != Tmp(main)
    ensures Same(s, SaveMain(s, main, dir), path)
  {
  }

  lemma PageStaysKept(s: Files, jobs: seq<Job>, i: nat, main: string, dir: string)
    requires Apart(jobs) && MainApart(jobs, main) && i < |jobs|
    ensures Kept(s, FullSave(s, jobs, main, dir), jobs[i].path, jobs[i].content)
  {
    var saved := SaveAll(s, jobs);
    AllAreKept(s, jobs, i);
    assert jobs[i] in jobs && main !in Touched(jobs[i]) && Tmp(main) !in Touched(jobs[i]);
    MainSaveFrame(saved, main, dir, jobs[i].path);
    MainSaveFrame(saved, main, dir, Tmp(jobs[i].path));
    MainSaveFrame(saved, main, dir, BackupPath(jobs[i].path));
  }

  lemma PagesStayDone(s: Files, jobs: seq<Job>, main: string, dir: string)
    requires Apart(jobs) && MainApart(jobs, main)
    ensures forall job :: job in jobs ==> Done(FullSave(s, jobs, main, dir), job)
  {
    AllDone(s, jobs);
    forall job | job in jobs ensures Done(FullSave(s, jobs, main, dir), job) {
      assert main !in Touched(job) && Tmp(main) !in Touched(job);
      MainSaveFrame(SaveAll(s, jobs), main, dir, job.path);
    }
  }

  lemma OthersStay(s: Files, jobs: seq<Job>, main: string, dir: string, path: string)
    requires path != main && path != Tmp(main) && forall job :: job in jobs ==> path !in Touched(job)
    ensures Same(s, FullSave(s, jobs, main, dir), path)
  {
    SaveFrame(s, SaveAll(s, jobs), jobs, path);
    MainSaveFrame(SaveAll(s, jobs), main, dir, path);
  }

  // ---------- The main file ----------

  lemma TornResumes(s: Files, t: Files, path: string, content: string)
    requires TornWrite(s, t, Tmp(path), content)
    ensures Same(s, t, path) && Replaced(t, path, content) == Replaced(s, path, content)
  {
    PathsOf(path);
    assert t - {Tmp(path)} == s - {Tmp(path)};
  }

  lemma MainResumes(s: Files, t: Files, main: string, dir: string)
    requires CutMain(s, t, main, dir) && Lacks(dir, END) && !Dangling(ReadOrEmpty(s, main))
    ensures SaveMain(t, main, dir) == SaveMain(s, main, dir)
  {
    var current := ReadOrEmpty(s, main);
    var text := EnsureBlock(current, dir);
    EnsureBlockIsIdempotent(current, dir);
    if t != s {
      if TornWrite(s, t, Tmp(main), text) {
        TornResumes(s, t, main, text);
      } else {
        assert ReadOrEmpty(t, main) == text;
      }
    }
  }

  lemma MainFrame(s: Files, t: Files, main: string, dir: string, path: string)
    requires CutMain(s, t, main, dir) && path != main && path != Tmp(main)
    ensures Same(s, t, path)
  {
  }

  lemma MainText(s: Files, t: Files, main: string, dir: string)
    requires CutMain(s, t, main, dir)
    ensures Same(s, t, main) || (main in t && t[main] == EnsureBlock(ReadOrEmpty(s, main), dir))
  {
    PathsOf(main);
  }

  lemma MainAfterSave(s: Files, jobs: seq<Job>, main: string)
    requires MainApart(jobs, main)
    ensures Same(s, SaveAll(s, jobs), main)
  {
    SaveFrame(s, SaveAll(s, jobs), jobs, main);
  }

  // ---------- The whole save ----------

  lemma CutResumes(s: Files, t: Files, jobs: seq<Job>, main: string, dir: string)
    requires CutFull(s, t, jobs, main, dir) && Apart(jobs) && MainApart(jobs, main) && Lacks(dir, END)
    requires !Dangling(ReadOrEmpty(s, main))
    ensures FullSave(t, jobs, main, dir) == FullSave(s, jobs, main, dir)
  {
    if CutSave(s, t, jobs) {
      SaveResumes(s, t, jobs);
    } else {
      var saved := SaveAll(s, jobs);
      MainAfterSave(s, jobs, main);
      AllDone(s, jobs);
      forall job | job in jobs ensures Done(t, job) {
        PathsOf(job.path);
        MainFrame(saved, t, main, dir, job.path);
      }
      NothingToDo(t, jobs);
      MainResumes(saved, t, main, dir);
    }
  }

  lemma MainAfterCut(s: Files, t: Files, jobs: seq<Job>, main: string, dir: string)
    requires CutFull(s, t, jobs, main, dir) && MainApart(jobs, main)
    ensures Same(s, t, main) || ReadOrEmpty(t, main) == EnsureBlock(ReadOrEmpty(s, main), dir)
  {
    if CutSave(s, t, jobs) {
      SaveFrame(s, t, jobs, main);
    } else {
      MainAfterSave(s, jobs, main);
      MainText(SaveAll(s, jobs), t, main, dir);
    }
  }

  /** A run of saves of one request, each but the last cut off somewhere. */
  ghost predicate CutRun(states: seq<Files>, jobs: seq<Job>, main: string, dir: string) {
    states != [] && forall i :: 0 < i < |states| ==> CutFull(states[i - 1], states[i], jobs, main, dir)
  }

  lemma StaysClosed(s: Files, t: Files, jobs: seq<Job>, main: string, dir: string)
    requires CutFull(s, t, jobs, main, dir) && MainApart(jobs, main) && Lacks(dir, END) &&
             !Dangling(ReadOrEmpty(s, main))
    ensures !Dangling(ReadOrEmpty(t, main))
  {
    MainAfterCut(s, t, jobs, main, dir);
    BlockIsSealed(dir);
    SpliceSettles(ReadOrEmpty(s, main), Block(dir), Unlines(Opening(dir)));
  }

  lemma {:induction false} CutRunResumes(states: seq<Files>, n: nat, jobs: seq<Job>, main: string, dir: string)
    requires CutRun(states, jobs, main, dir) && n < |states|
    requires Apart(jobs) && MainApart(jobs, main) && Lacks(dir, END) && !Dangling(ReadOrEmpty(states[0], main))
    ensures FullSave(states[n], jobs, main, dir) == FullSave(states[0], jobs, main, dir)
    ensures !Dangling(ReadOrEmpty(states[n], main))
  {
    if n > 0 {
      CutRunResumes(states, n - 1, jobs, main, dir);
      CutResumes(states[n - 1], states[n], jobs, main, dir);
      StaysClosed(states[n - 1], states[n], jobs, main, dir);
    }
  }

  // ---------- What is on disk at a cut ----------

  /** The first files hold their new texts, the others what they held before, and the main file is
      new only when all of them are. */
  ghost predicate Partly(s: Files, t: Files, jobs: seq<Job>, main: string, newMain: string, k: nat) {
    && k <= |jobs|
    && (forall i :: 0 <= i < k ==> Done(t, jobs[i]))
    && (forall i :: k <= i < |jobs| ==> Same(s, t, jobs[i].path))
    && (Same(s, t, main) || (k == |jobs| && ReadOrEmpty(t, main) == newMain))
  }

  lemma FileWhole(s: Files, t: Files, job: Job)
    requires CutFile(s, t, job)
    ensures Same(s, t, job.path) || Done(t, job)
  {
    PathsOf(job.path);
  }

  lemma {:induction false} CutSaveIsPrefix(s: Files, t: Files, jobs: seq<Job>) returns (k: nat)
    requires CutSave(s, t, jobs) && Apart(jobs)
    ensures k <= |jobs|
    ensures forall i :: 0 <= i < k ==> Done(t, jobs[i])
    ensures forall i :: k <= i < |jobs| ==> Same(s, t, jobs[i].path)
    decreases jobs
  {
    if jobs == [] {
      return 0;
    }
    var job, rest := jobs[0], jobs[1..];
    NotTouched(jobs, job.path);
    if CutFile(s, t, job) {
      FileWhole(s, t, job);
      k := if Done(t, job) then 1 else 0;
      OthersUntouched(s, t, jobs);
    } else {
      var m := SaveFile(s, job);
      var r := CutSaveIsPrefix(m, t, rest);
      SavedIsDone(s, job);
      SaveFrame(m, t, rest, job.path);
      OthersUntouched(s, m, jobs);
      k := r + 1;
      forall i | 0 <= i < k ensures Done(t, jobs[i]) {
        assert i > 0 ==> jobs[i] == rest[i - 1];
      }
      forall i | k <= i < |jobs| ensures Same(s, t, jobs[i].path) {
        assert jobs[i] == rest[i - 1] && Same(m, t, rest[i - 1].path);
      }
    }
  }

  lemma OthersUntouched(s: Files, t: Files, jobs: seq<Job>)
    requires jobs != [] && Apart(jobs) && (CutFile(s, t, jobs[0]) || t == SaveFile(s, jobs[0]))
    ensures forall i :: 1 <= i < |jobs| ==> Same(s, t, jobs[i].path)
  {
    forall i | 1 <= i < |jobs| ensures Same(s, t, jobs[i].path) {
      assert Touched(jobs[0]) !! Touched(jobs[i]) && jobs[i].path in Touched(jobs[i]);
      FileFrame(s, t, jobs[0], jobs[i].path);
    }
  }

  lemma CutIsPartly(s: Files, t: Files, jobs: seq<Job>, main: string, dir: string) returns (k: nat)
    requires CutFull(s, t, jobs, main, dir) && Apart(jobs) && MainApart(jobs, main)
    ensures Partly(s, t, jobs, main, EnsureBlock(ReadOrEmpty(s, main), dir), k)
  {
    MainAfterCut(s, t, jobs, main, dir);
    if CutSave(s, t, jobs) {
      k := CutSaveIsPrefix(s, t, jobs);
      SaveFrame(s, t, jobs, main);
    } else {
      k := |jobs|;
      AllDone(s, jobs);
      forall i | 0 <= i < k ensures Done(t, jobs[i]) {
        assert jobs[i] in jobs;
        PathsOf(jobs[i].path);
        MainFrame(SaveAll(s, jobs), t, main, dir, jobs[i].path);
      }
    }
  }

  lemma PartlyTwice(s: Files, t: Files, u: Files, jobs: seq<Job>, main: string, newMain: string, j: nat, k: nat)
    returns (n: nat)
    requires Partly(s, t, jobs, main, newMain, j) && Partly(t, u, jobs, main, newMain, k)
    ensures Partly(s, u, jobs, main, newMain, n)
  {
    n := if j < k then k else j;
    forall i | 0 <= i < n ensures Done(u, jobs[i]) {
      assert i >= k ==> Done(t, jobs[i]) && Same(t, u, jobs[i].path);
    }
  }

  lemma SameTarget(s: Files, t: Files, main: string, dir: string)
    requires Lacks(dir, END) && !Dangling(ReadOrEmpty(s, main))
    requires Same(s, t, main) || ReadOrEmpty(t, main) == EnsureBlock(ReadOrEmpty(s, main), dir)
    ensures EnsureBlock(ReadOrEmpty(t, main), dir) == EnsureBlock(ReadOrEmpty(s, main), dir)
  {
    EnsureBlockIsIdempotent(ReadOrEmpty(s, main), dir);
  }

  /** After any number of cut saves each target is wholly old or wholly new, the new ones come first
      in the order of writing, and one complete save ends as a single uncut save would: every
      managed file, every backup, every temporary file and the main file. */
  lemma {:induction false} CutSavesRecover(states: seq<Files>, n: nat, jobs: seq<Job>, main: string, dir: string)
    returns (k: nat)
    requires CutRun(states, jobs, main, dir) && n < |states|
    requires Apart(jobs) && MainApart(jobs, main) && Lacks(dir, END) && !Dangling(ReadOrEmpty(states[0], main))
    ensures Partly(states[0], states[n], jobs, main, EnsureBlock(ReadOrEmpty(states[0], main), dir), k)
    ensures FullSave(states[n], jobs, main, dir) == FullSave(states[0], jobs, main, dir)
  {
    CutRunResumes(states, n, jobs, main, dir);
    k := CutRunIsPartly(states, n, jobs, main, dir);
  }

  lemma {:induction false} CutRunIsPartly(states: seq<Files>, n: nat, jobs: seq<Job>, main: string, dir: string)
    returns (k: nat)
    requires CutRun(states, jobs, main, dir) && n < |states|
    requires Apart(jobs) && MainApart(jobs, main) && Lacks(dir, END) && !Dangling(ReadOrEmpty(states[0], main))
    ensures Partly(states[0], states[n], jobs, main, EnsureBlock(ReadOrEmpty(states[0], main), dir), k)
  {
    if n == 0 {
      k := 0;
    } else {
      var j := CutRunIsPartly(states, n - 1, jobs, main, dir);
      k := CutAgainIsPartly(states[0], states[n - 1], states[n], jobs, main, dir, j);
    }
  }

  lemma CutAgainIsPartly(s: Files, t: Files, u: Files, jobs: seq<Job>, main: string, dir: string, j: nat)
    returns (k: nat)
    requires Partly(s, t, jobs, main, EnsureBlock(ReadOrEmpty(s, main), dir), j) && CutFull(t, u, jobs, main, dir)
    requires Apart(jobs) && MainApart(jobs, main) && Lacks(dir, END) && !Dangling(ReadOrEmpty(s, main))
    ensures Partly(s, u, jobs, main, EnsureBlock(ReadOrEmpty(s, main), dir), k)
  {
    var i := CutIsPartly(t, u, jobs, main, dir);
    SameTarget(s, t, main, dir);
    k := PartlyTwice(s, t, u, jobs, main, EnsureBlock(ReadOrEmpty(s, main), dir), j, i);
  }

  lemma {:induction false} CutAtEnd(s: Files, jobs: seq<Job>)
    ensures CutSave(s, SaveAll(s, jobs), jobs)
    decreases jobs
  {
    if jobs != [] {
      CutAtEnd(SaveFile(s, jobs[0]), jobs[1..]);
    }
  }

  /** Every cut is recovered from if and only if the directory does not hold the end marker and the
      first begin marker of the main file is absent or closed. */
  lemma RecoversIffClosed(s: Files, jobs: seq<Job>, main: string, dir: string)
    requires Apart(jobs) && MainApart(jobs, main)
    ensures (forall t :: CutFull(s, t, jobs, main, dir) ==>
               FullSave(t, jobs, main, dir) == FullSave(s, jobs, main, dir))
       <==> Lacks(dir, END) && !Dangling(ReadOrEmpty(s, main))
  {
    if Lacks(dir, END) && !Dangling(ReadOrEmpty(s, main)) {
      forall t | CutFull(s, t, jobs, main, dir)
        ensures FullSave(t, jobs, main, dir) == FullSave(s, jobs, main, dir)
      {
        CutResumes(s, t, jobs, main, dir);
      }
    } else {
      FullSaveIsCut(s, jobs, main, dir);
      TwiceDiffers(s, jobs, main, dir);
    }
  }

  lemma FullSaveIsCut(s: Files, jobs: seq<Job>, main: string, dir: string)
    ensures CutFull(s, FullSave(s, jobs, main, dir), jobs, main, dir)
  {
    CutAtEnd(s, jobs);
  }

  lemma SavedMain(s: Files, jobs: seq<Job>, main: string, dir: string)
    requires MainApart(jobs, main)
    ensures ReadOrEmpty(FullSave(s, jobs, main, dir), main) == EnsureBlock(ReadOrEmpty(s, main), dir)
  {
    MainAfterSave(s, jobs, main);
  }

  lemma TwiceDiffers(s: Files, jobs: seq<Job>, main: string, dir: string)
    requires MainApart(jobs, main) && !(Lacks(dir, END) && !Dangling(ReadOrEmpty(s, main)))
    ensures FullSave(FullSave(s, jobs, main, dir), jobs, main, dir) != FullSave(s, jobs, main, dir)
  {
    var t := FullSave(s, jobs, main, dir);
    SavedMain(s, jobs, main, dir);
    SavedMain(t, jobs, main, dir);
    EnsureBlockIsIdempotent(ReadOrEmpty(s, main), dir);
  }
}
