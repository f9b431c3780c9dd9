/** The save itself: validation, nine files, and a disk that may be cut off at any step of it. */
module SaveConfig {
  import opened Text
  import opened ConfigLines
  import opened UpstreamOptions
  import opened UpstreamFile
  import opened ManagedAssets
  import opened AssetsRoundTrip
  import opened ManagedBlock
  import opened EffectivePreview
  import opened SaveRecovery
  import opened NormalizedRules
  import opened PageContents
  import opened MainIncludes
  import B = Brackets

  /** Files, and a budget of steps after which the machine stops. The step that is cut off still
      writes some characters, or none at all. */
  class Disk {
    var files: Files
    var fuel: nat
    var torn: nat
    var cut: bool

    constructor (given: Files, steps: nat, characters: nat)
      ensures files == given && !cut && fuel == steps && torn == characters
    {
      files, fuel, torn, cut := given, steps, characters, false;
    }

    method Write(path: string, content: string)
      modifies this
      ensures old(cut) ==> cut && files == old(files)
      ensures !old(cut) && cut ==> TornWrite(old(files), files, path, content)
      ensures !cut ==> !old(cut) && files == old(files)[path := content]
    {
      if cut {
        return;
      }
      if fuel > 0 {
        fuel, files := fuel - 1, files[path := content];
      } else {
        cut := true;
        if torn > 0 {
          var n := if torn <= |content| then torn else |content|;
          files := files[path := content[..n]];
        }
      }
    }

    /** Renaming is one step. */
    method Rename(from: string, to: string)
      requires !cut ==> from in files
      modifies this
      ensures old(cut) ==> cut && files == old(files)
      ensures !old(cut) && cut ==> files == old(files)
      ensures !cut ==> !old(cut) && files == (old(files) - {from})[to := old(files)[from]]
    {
      if cut {
        return;
      }
      if fuel > 0 {
        fuel, files := fuel - 1, (files - {from})[to := files[from]];
      } else {
        cut := true;
      }
    }

    method WriteTextAtomic(path: string, content: string)
      modifies this
      ensures old(cut) ==> cut && files == old(files)
      ensures !old(cut) && cut ==> CutAtomic(old(files), files, path, content)
      ensures !cut ==> !old(cut) && files == Replaced(old(files), path, content)
    {
      ghost var before := files;
      PathsOf(path);
      Write(Tmp(path), content);
      ghost var written := files;
      assert content[..|content|] == content;
      Rename(Tmp(path), path);
      assert before[Tmp(path) := content] - {Tmp(path)} == before - {Tmp(path)};
    }

    method BackupFile(path: string)
      modifies this
      ensures old(cut) ==> cut && files == old(files)
      ensures !old(cut) && cut ==>
              path in old(files) && TornWrite(old(files), files, BackupPath(path), old(files)[path])
      ensures !cut ==> !old(cut) && files == Backed(old(files), path)
    {
      if path in files {
        Write(BackupPath(path), files[path]);
      }
    }

    method WriteTextWithBackupIfChanged(path: string, content: string)
      modifies this
      ensures old(cut) ==> cut && files == old(files)
      ensures !old(cut) && cut ==> CutFile(old(files), files, Job(path, content))
      ensures !cut ==> !old(cut) && files == SaveFile(old(files), Job(path, content))
    {
      var current := ReadOrEmpty(files, path);
      if current == content {
        return;
      }
      if path in files {
        BackupFile(path);
      }
      WriteTextAtomic(path, content);
    }

    method ApplyWorkingConfig(main: string, dir: string)
      modifies this
      ensures old(cut) ==> cut && files == old(files)
      ensures !old(cut) && cut ==> CutMain(old(files), files, main, dir)
      ensures !cut ==> !old(cut) && files == SaveMain(old(files), main, dir)
    {
      var current := ReadOrEmpty(files, main);
      var newMain := EnsureManagedBlock(current, dir);
      if newMain != current {
        WriteTextAtomic(main, newMain);
      }
    }
  }

  // ---------- The nine files ----------

  /** The settings, the rules text as entered, and the texts of the pages whose renderers are not part
      of this model. */
  datatype Request = Request(beginner: BeginnerConfig, rulesText: string, service: string, performance: string,
                             logging: string, network: string)

  datatype Texts = Texts(service: string, upstreams: string, performance: string, routing: string,
                         rules: string, sets: string, logging: string, network: string)

  function PageTexts(r: Request): Texts {
    var assets := ParseAssets(NormalizeRules(r.rulesText));
    Texts(r.service, RenderUpstreams(r.beginner.upstreams), r.performance, RoutingText(assets), RulesText(assets),
          SetsText(assets), r.logging, r.network)
  }

  /** The pages in the order of writing. */
  function PageJobs(t: Texts, dir: string): seq<Job> {
    [Job(PathJoin(dir, SERVICE), t.service),
     Job(PathJoin(dir, UPSTREAMS), t.upstreams),
     Job(PathJoin(dir, PERFORMANCE), t.performance),
     Job(PathJoin(dir, ROUTING), t.routing),
     Job(PathJoin(dir, RULES), t.rules),
     Job(PathJoin(dir, SETS), t.sets),
     Job(PathJoin(dir, LOGGING), t.logging),
     Job(PathJoin(dir, NETWORK), t.network)]
  }

  function Jobs(r: Request, dir: string): seq<Job> {
    PageJobs(PageTexts(r), dir)
  }

  /** Some of the files are saved, or the save was cut off among them. */
  ghost predicate Progress(s: Files, t: Files, cut: bool, jobs: seq<Job>, k: nat) {
    k <= |jobs| && if cut then CutSave(s, t, jobs[..k]) else t == SaveAll(s, jobs[..k])
  }

  lemma {:induction false} CutNowhere(s: Files, jobs: seq<Job>)
    ensures CutSave(s, s, jobs)
  {
  }

  lemma {:induction false} CutEarlier(s: Files, t: Files, a: seq<Job>, b: seq<Job>)
    requires CutSave(s, t, a)
    ensures CutSave(s, t, a + b)
    decreases a
  {
    if a == [] {
      assert a + b == b;
      CutNowhere(s, b);
    } else {
      assert (a + b)[1..] == a[1..] + b;
      if !CutFile(s, t, a[0]) {
        CutEarlier(SaveFile(s, a[0]), t, a[1..], b);
      }
    }
  }

  lemma {:induction false} CutLater(s: Files, t: Files, a: seq<Job>, b: seq<Job>)
    ensures CutSave(SaveAll(s, a), t, b) ==> CutSave(s, t, a + b)
    ensures SaveAll(s, a + b) == SaveAll(SaveAll(s, a), b)
    decreases a
  {
    if a == [] {
      assert a + b == b;
    } else {
      assert (a + b)[1..] == a[1..] + b;
      CutLater(SaveFile(s, a[0]), t, a[1..], b);
    }
  }

  lemma OneMore(s: Files, m: Files, t: Files, wasCut: bool, cut: bool, jobs: seq<Job>, k: nat)
    requires Progress(s, m, wasCut, jobs, k) && k < |jobs|
    requires wasCut ==> cut && t == m
    requires !wasCut && cut ==> CutFile(m, t, jobs[k])
    requires !cut ==> t == SaveFile(m, jobs[k])
    ensures Progress(s, t, cut, jobs, k + 1)
  {
    var last := [jobs[k]];
    assert jobs[..k + 1] == jobs[..k] + last && last[1..] == [];
    if wasCut {
      CutEarlier(s, t, jobs[..k], last);
    } else {
      CutLater(s, t, jobs[..k], last);
    }
  }

  method SaveNext(disk: Disk, ghost start: Files, ghost jobs: seq<Job>, ghost k: nat, path: string, content: string)
    requires k < |jobs| && jobs[k] == Job(path, content) && Progress(start, disk.files, disk.cut, jobs, k)
    modifies disk
    ensures Progress(start, disk.files, disk.cut, jobs, k + 1)
  {
    ghost var files, cut := disk.files, disk.cut;
    disk.WriteTextWithBackupIfChanged(path, content);
    OneMore(start, files, disk.files, cut, disk.cut, jobs, k);
  }

  method RenderPages(r: Request) returns (t: Texts)
    ensures t == PageTexts(r)
  {
    var upstreams := RenderUpstreamsConfig(r.beginner.upstreams);
    var assets := ParseManagedAssets(NormalizeRules(r.rulesText));
    var routing := RenderRoutingItemsText(assets);
    var rules := RenderRuleEntriesText(assets);
    var sets := RenderSetsText(assets);
    t := Texts(r.service, upstreams, r.performance, routing, rules, sets, r.logging, r.network);
  }

  method SavePages(disk: Disk, dir: string, t: Texts)
    requires !disk.cut
    modifies disk
    ensures Progress(old(disk.files), disk.files, disk.cut, PageJobs(t, dir), 8)
  {
    ghost var start, jobs := disk.files, PageJobs(t, dir);
    SaveNext(disk, start, jobs, 0, PathJoin(dir, SERVICE), t.service);
    SaveNext(disk, start, jobs, 1, PathJoin(dir, UPSTREAMS), t.upstreams);
    SaveNext(disk, start, jobs, 2, PathJoin(dir, PERFORMANCE), t.performance);
    SaveNext(disk, start, jobs, 3, PathJoin(dir, ROUTING), t.routing);
    SaveNext(disk, start, jobs, 4, PathJoin(dir, RULES), t.rules);
    SaveNext(disk, start, jobs, 5, PathJoin(dir, SETS), t.sets);
    SaveNext(disk, start, jobs, 6, PathJoin(dir, LOGGING), t.logging);
    SaveNext(disk, start, jobs, 7, PathJoin(dir, NETWORK), t.network);
  }

  // ---------- The paths of a save ----------

  function Prefix(dir: string): string {
    if dir == "" || EndsWith(dir, '/') then dir else dir + "/"
  }

  lemma JoinIsPrefix(dir: string, name: string)
    ensures PathJoin(dir, name) == Prefix(dir) + name
  {
  }

  lemma NamesDiffer(prefix: string, a: string, x: string, b: string, y: string)
    requires a != "" && b != "" && a[0] != b[0]
    ensures prefix + a + x != prefix + b + y
  {
    assert (prefix + a + x)[|prefix|] == a[0] && (prefix + b + y)[|prefix|] == b[0];
  }

  lemma TouchedDiffer(dir: string, a: string, b: string, s: string, t: string)
    requires a != "" && b != "" && a[0] != b[0]
    ensures Touched(Job(PathJoin(dir, a), s)) !! Touched(Job(PathJoin(dir, b), t))
  {
    JoinIsPrefix(dir, a);
    JoinIsPrefix(dir, b);
    var p := Prefix(dir);
    assert p + a + "" == p + a && p + b + "" == p + b;
    forall u, v | u in Touched(Job(PathJoin(dir, a), s)) && v in Touched(Job(PathJoin(dir, b), t)) ensures u != v {
      var x := if u == p + a then "" else if u == p + a + ".tmp" then ".tmp" else ".backup";
      var y := if v == p + b then "" else if v == p + b + ".tmp" then ".tmp" else ".backup";
      NamesDiffer(p, a, x, b, y);
    }
  }

  function PageName(i: nat): string
    requires i < 8
  {
    if i == 0 then SERVICE else if i == 1 then UPSTREAMS else if i == 2 then PERFORMANCE else if i == 3 then ROUTING
    else if i == 4 then RULES else if i == 5 then SETS else if i == 6 then LOGGING else NETWORK
  }

  lemma PageDigits(i: nat)
    requires i < 8
    ensures PageName(i) != "" && PageName(i)[0] as int == '1' as int + i
  {
  }

  lemma JobPaths(t: Texts, dir: string, i: nat)
    requires i < 8
    ensures |PageJobs(t, dir)| == 8 && PageJobs(t, dir)[i].path == PathJoin(dir, PageName(i))
  {
  }

  /** The files of one page never coincide with those of another. */
  lemma PagesAreApart(t: Texts, dir: string)
    ensures Apart(PageJobs(t, dir))
  {
    var jobs := PageJobs(t, dir);
    forall i, j | 0 <= i < j < |jobs| ensures Touched(jobs[i]) !! Touched(jobs[j]) {
      JobPaths(t, dir, i);
      JobPaths(t, dir, j);
      PageDigits(i);
      PageDigits(j);
      TouchedDiffer(dir, PageName(i), PageName(j), jobs[i].content, jobs[j].content);
    }
  }

  /** The main file is apart from the pages when it lies outside their directory. */
  lemma MainElsewhere(t: Texts, main: string, dir: string)
    requires !(Prefix(dir) <= Tmp(main))
    ensures MainApart(PageJobs(t, dir), main)
  {
    var jobs := PageJobs(t, dir);
    forall job | job in jobs ensures main !in Touched(job) && Tmp(main) !in Touched(job) {
      var i :| 0 <= i < |jobs| && jobs[i] == job;
      JobPaths(t, dir, i);
      JoinIsPrefix(dir, PageName(i));
      ElsewhereTouches(job, Prefix(dir), PageName(i), main);
    }
  }

  lemma ElsewhereTouches(job: Job, prefix: string, name: string, main: string)
    requires job.path == prefix + name && !(prefix <= Tmp(main))
    ensures main !in Touched(job) && Tmp(main) !in Touched(job)
  {
    assert prefix <= job.path;
    assert prefix <= Tmp(job.path) && prefix <= BackupPath(job.path);
    assert prefix <= main ==> prefix <= Tmp(main);
  }

  // ---------- What a complete save leaves ----------

  predicate IsPage(name: string) {
    || name == SERVICE || name == UPSTREAMS || name == PERFORMANCE
    || name == ROUTING || name == RULES || name == SETS
    || name == LOGGING || name == NETWORK
  }

  function PageText(files: Files, dir: string, name: string): string {
    ReadOrEmpty(files, PathJoin(dir, name))
  }

  /** A path that is not another one, nor its backup or temporary file. */
  predicate Beside(path: string, page: string) {
    path != page && path != page + ".tmp" && path != page + ".backup"
  }

  ghost predicate OutsidePages(path: string, dir: string) {
    forall name :: IsPage(name) ==> Beside(path, PathJoin(dir, name))
  }

  /** The main file is no page, nor the backup or the temporary file of one, and neither is its own
      temporary file. */
  ghost predicate MainBeside(main: string, dir: string) {
    OutsidePages(main, dir) && OutsidePages(main + ".tmp", dir)
  }

  /** Each page holds the text it is for: the texts of the request, the upstreams with a value under
      their first groups, and the assets of the rules, each kind on its own page. */
  ghost predicate PagesHold(files: Files, r: Request, dir: string) {
    && PageText(files, dir, SERVICE) == r.service && PageText(files, dir, PERFORMANCE) == r.performance
    && PageText(files, dir, LOGGING) == r.logging && PageText(files, dir, NETWORK) == r.network
    && UpstreamsHold(PageText(files, dir, UPSTREAMS), r.beginner.upstreams)
    && AssetsHold(PageText(files, dir, ROUTING), PageText(files, dir, RULES),
                  PageText(files, dir, SETS), ParseAssets(r.rulesText))
  }

  ghost predicate UpstreamsHold(text: string, us: seq<Upstream>) {
    us != [] && (forall u :: u in us ==> TokenShaped(u)) ==>
      ParseBeginner(text).upstreams == AsRead(Regrouped(Visible(us)))
  }

  /** What the pages hold is read back in the order of the overview. */
  ghost predicate AssetsHold(routing: string, rules: string, sets: string, a: Assets) {
    && (forall d :: d in Directives(routing) ==> d.key == "nameserver")
    && (forall d :: d in Directives(rules) ==> d.key != "nameserver" && (IsRoutingKey(d.key) || IsIpRuleKey(d.key)))
    && (forall d :: d in Directives(sets) ==> d.key == "domain-set" || d.key == "ip-set")
    && (Shaped(a) ==> ParseAssets(JoinNonemptySections([routing, rules, sets])) == Normal(a))
  }

  /** Former texts are in the backups, and nothing but the pages and the main file has changed. */
  ghost predicate PagesKept(s: Files, t: Files, main: string, dir: string) {
    && (forall name :: IsPage(name) ==> Kept(s, t, PathJoin(dir, name), PageText(t, dir, name)))
    && (forall path :: path != main && path != main + ".tmp" && OutsidePages(path, dir) ==> Same(s, t, path))
  }

  /** The main file has its block, and says what it said around its old block, with the eight includes
      in place of that. */
  ghost predicate MainHolds(s: Files, t: Files, main: string, dir: string) {
    var (before, after) := Outside(ReadOrEmpty(s, main));
    && ReadOrEmpty(t, main) == EnsureBlock(ReadOrEmpty(s, main), dir)
    && (Spaceless(dir) ==>
          Directives(ReadOrEmpty(t, main)) == Directives(before) + PageIncludes(dir) + Directives(after))
  }

  lemma NamesOfPages(i: nat)
    requires i < 8
    ensures IsPage(PageName(i))
  {
  }

  lemma PageNumber(name: string) returns (i: nat)
    requires IsPage(name)
    ensures i < 8 && PageName(i) == name
  {
    i := name[0] as int - '1' as int;
  }

  lemma OutsideJobs(t: Texts, dir: string, path: string)
    requires OutsidePages(path, dir)
    ensures forall job :: job in PageJobs(t, dir) ==> path !in Touched(job)
  {
    var jobs := PageJobs(t, dir);
    forall job | job in jobs ensures path !in Touched(job) {
      var i := JobNumber(t, dir, job);
      NamesOfPages(i);
      assert Beside(path, PathJoin(dir, PageName(i)));
    }
  }

  lemma JobNumber(t: Texts, dir: string, job: Job) returns (i: nat)
    requires job in PageJobs(t, dir)
    ensures i < 8 && job.path == PathJoin(dir, PageName(i))
  {
    i :| 0 <= i < |PageJobs(t, dir)| && PageJobs(t, dir)[i] == job;
    JobPaths(t, dir, i);
  }

  lemma PageAfterSave(s: Files, r: Request, main: string, dir: string, i: nat)
    requires MainApart(Jobs(r, dir), main) && i < 8
    ensures |Jobs(r, dir)| == 8
    ensures var job := Jobs(r, dir)[i]; Kept(s, FullSave(s, Jobs(r, dir), main, dir), job.path, job.content)
  {
    var texts := PageTexts(r);
    JobPaths(texts, dir, i);
    PagesAreApart(texts, dir);
    PageStaysKept(s, Jobs(r, dir), i, main, dir);
  }

  /** Every page holds the text that was written for it. */
  ghost predicate PagesAre(files: Files, t: Texts, dir: string) {
    && PageText(files, dir, SERVICE) == t.service && PageText(files, dir, UPSTREAMS) == t.upstreams
    && PageText(files, dir, PERFORMANCE) == t.performance && PageText(files, dir, ROUTING) == t.routing
    && PageText(files, dir, RULES) == t.rules && PageText(files, dir, SETS) == t.sets
    && PageText(files, dir, LOGGING) == t.logging && PageText(files, dir, NETWORK) == t.network
  }

  lemma DonePagesAre(files: Files, t: Texts, dir: string)
    requires forall job :: job in PageJobs(t, dir) ==> Done(files, job)
    ensures PagesAre(files, t, dir)
  {
    assert Job(PathJoin(dir, SERVICE), t.service) in PageJobs(t, dir);
    assert Job(PathJoin(dir, UPSTREAMS), t.upstreams) in PageJobs(t, dir);
    assert Job(PathJoin(dir, PERFORMANCE), t.performance) in PageJobs(t, dir);
    assert Job(PathJoin(dir, ROUTING), t.routing) in PageJobs(t, dir);
    assert Job(PathJoin(dir, RULES), t.rules) in PageJobs(t, dir);
    assert Job(PathJoin(dir, SETS), t.sets) in PageJobs(t, dir);
    assert Job(PathJoin(dir, LOGGING), t.logging) in PageJobs(t, dir);
    assert Job(PathJoin(dir, NETWORK), t.network) in PageJobs(t, dir);
  }

  lemma SavedPagesAre(s: Files, r: Request, main: string, dir: string)
    requires MainApart(Jobs(r, dir), main)
    ensures PagesAre(FullSave(s, Jobs(r, dir), main, dir), PageTexts(r), dir)
  {
    PagesAreApart(PageTexts(r), dir);
    PagesStayDone(s, Jobs(r, dir), main, dir);
    DonePagesAre(FullSave(s, Jobs(r, dir), main, dir), PageTexts(r), dir);
  }

  lemma RenderedAssetsHold(text: string)
    ensures var a := ParseAssets(text);
            AssetsHold(RoutingText(a), RulesText(a), SetsText(a), a)
  {
    var a := ParseAssets(text);
    PagesKeepTheirKeys(text);
    if Shaped(a) {
      AssetsRoundTrip.AssetsRoundTrip(a);
    }
  }

  lemma EnteredAssetsHold(text: string)
    ensures var a := ParseAssets(NormalizeRules(text));
            AssetsHold(RoutingText(a), RulesText(a), SetsText(a), ParseAssets(text))
  {
    NormalizedSaysSame(text);
    RenderedAssetsHold(NormalizeRules(text));
  }

  lemma BesideIsApart(r: Request, main: string, dir: string)
    requires MainBeside(main, dir)
    ensures MainApart(Jobs(r, dir), main)
  {
    OutsideJobs(PageTexts(r), dir, main);
    OutsideJobs(PageTexts(r), dir, main + ".tmp");
  }

  lemma SaveKeeps(s: Files, r: Request, main: string, dir: string)
    requires MainBeside(main, dir)
    ensures PagesKept(s, FullSave(s, Jobs(r, dir), main, dir), main, dir)
  {
    var t := FullSave(s, Jobs(r, dir), main, dir);
    BesideIsApart(r, main, dir);
    forall name | IsPage(name) ensures Kept(s, t, PathJoin(dir, name), PageText(t, dir, name)) {
      var i := PageNumber(name);
      JobPaths(PageTexts(r), dir, i);
      PageAfterSave(s, r, main, dir, i);
    }
    forall path | path != main && path != main + ".tmp" && OutsidePages(path, dir) ensures Same(s, t, path) {
      OutsideJobs(PageTexts(r), dir, path);
      OthersStay(s, Jobs(r, dir), main, dir, path);
    }
  }

  lemma SavedMainHolds(s: Files, r: Request, main: string, dir: string)
    requires MainBeside(main, dir)
    ensures MainHolds(s, FullSave(s, Jobs(r, dir), main, dir), main, dir)
  {
    BesideIsApart(r, main, dir);
    SavedMain(s, Jobs(r, dir), main, dir);
    if Spaceless(dir) {
      MainSays(ReadOrEmpty(s, main), dir);
    }
  }

  lemma SavedPagesHold(s: Files, r: Request, main: string, dir: string)
    requires MainBeside(main, dir)
    ensures PagesHold(FullSave(s, Jobs(r, dir), main, dir), r, dir)
  {
    var us := r.beginner.upstreams;
    BesideIsApart(r, main, dir);
    SavedPagesAre(s, r, main, dir);
    EnteredAssetsHold(r.rulesText);
    if us != [] && forall u :: u in us ==> TokenShaped(u) {
      UpstreamFileRoundTrip(us);
    }
  }

  /** What a complete save leaves: the pages, the backups, the main file, and all else untouched. */
  ghost predicate Saved(s: Files, t: Files, r: Request, main: string, dir: string) {
    PagesHold(t, r, dir) && PagesKept(s, t, main, dir) && MainHolds(s, t, main, dir)
  }

  lemma SaveMeans(s: Files, r: Request, main: string, dir: string)
    requires MainBeside(main, dir)
    ensures Saved(s, FullSave(s, Jobs(r, dir), main, dir), r, main, dir)
  {
    SavedPagesHold(s, r, main, dir);
    SaveKeeps(s, r, main, dir);
    SavedMainHolds(s, r, main, dir);
  }

  lemma PreviewPages(files: Files, dir: string)
    ensures var page := (name: string) => PageText(files, dir, name);
            Pages(files, dir, PageNames()) ==
            [page(SERVICE), page(UPSTREAMS), page(PERFORMANCE), page(ROUTING), page(RULES), page(SETS), page(LOGGING),
             page(NETWORK)]
  {
    var names := PageNames();
    PagesAt(files, dir, names, 0);
    forall i | 0 <= i < 8 ensures Pages(files, dir, names)[i] == PageText(files, dir, names[i]) {
      PagesAt(files, dir, names, i);
    }
  }

  lemma {:induction false} PagesAt(files: Files, dir: string, names: seq<string>, i: nat)
    requires i < |names|
    ensures |Pages(files, dir, names)| == |names| && Pages(files, dir, names)[i] == PageText(files, dir, names[i])
  {
    if |names| > 1 {
      PagesAt(files, dir, names[1..], if i > 0 then i - 1 else 0);
    }
  }

  /** The overview of saved files says what the main file says around its block and between that all
      the pages say: first the three general pages, then nameservers, rules and sets, and logging and
      network last. */
  lemma SavedPreviewSays(s: Files, t: Files, main: string, dir: string)
    requires MainHolds(s, t, main, dir) && Unbroken(dir)
    requires var text := ReadOrEmpty(s, main); !Dangling(text) && NoneOpens(Lines(Tail(Outside(text).1)[1..]))
    ensures var (before, after) := Outside(ReadOrEmpty(s, main));
            var page := (name: string) => PageText(t, dir, name);
            Directives(Preview(ReadOrEmpty(t, main), Pages(t, dir, PageNames()))) ==
            Directives(before) +
            (DirectivesOfAll([page(SERVICE), page(UPSTREAMS), page(PERFORMANCE), page(ROUTING), page(RULES),
                              page(SETS), page(LOGGING), page(NETWORK)]) + Directives(after))
  {
    PreviewPages(t, dir);
    PreviewSays(ReadOrEmpty(s, main), dir, Pages(t, dir, PageNames()));
  }

  /** A request with errors changes nothing; any other saves the eight pages and then the main file. */
  method SaveBeginnerConfig(disk: Disk, main: string, dir: string, r: Request) returns (errors: seq<B.Issue>)
    requires !disk.cut
    modifies disk
    ensures errors == B.ConfigIssues(r.beginner) + B.BracketIssues(Lines(r.rulesText))
    ensures errors == [] <==> B.MaySave(r.beginner, Lines(r.rulesText))
    ensures errors != [] ==> !disk.cut && disk.files == old(disk.files)
    ensures errors == [] && !disk.cut ==> disk.files == FullSave(old(disk.files), Jobs(r, dir), main, dir)
    ensures disk.cut ==> CutFull(old(disk.files), disk.files, Jobs(r, dir), main, dir)
    ensures errors == [] && !disk.cut && MainBeside(main, dir) ==>
              Saved(old(disk.files), disk.files, r, main, dir)
  {
    errors := B.ValidateBeginnerConfig(r.beginner, r.rulesText);
    if errors != [] {
      return;
    }
    ghost var start := disk.files;
    SaveFiles(disk, main, dir, r);
    if !disk.cut && MainBeside(main, dir) {
      SaveMeans(start, r, main, dir);
    }
  }

  method SaveFiles(disk: Disk, main: string, dir: string, r: Request)
    requires !disk.cut
    modifies disk
    ensures !disk.cut ==> disk.files == FullSave(old(disk.files), Jobs(r, dir), main, dir)
    ensures disk.cut ==> CutFull(old(disk.files), disk.files, Jobs(r, dir), main, dir)
  {
    ghost var jobs := Jobs(r, dir);
    var texts := RenderPages(r);
    SavePages(disk, dir, texts);
    assert jobs[..8] == jobs;
    disk.ApplyWorkingConfig(main, dir);
  }

  /** Saves of one request, all but the last cut off anywhere, end as one uncut save. */
  lemma SavesRecover(states: seq<Files>, r: Request, main: string, dir: string) returns (k: nat)
    requires CutRun(states, Jobs(r, dir), main, dir) && MainApart(Jobs(r, dir), main)
    requires Lacks(dir, END) && !Dangling(ReadOrEmpty(states[0], main))
    ensures var last := states[|states| - 1];
            && FullSave(last, Jobs(r, dir), main, dir) == FullSave(states[0], Jobs(r, dir), main, dir)
            && Partly(states[0], last, Jobs(r, dir), main, EnsureBlock(ReadOrEmpty(states[0], main), dir), k)
  {
    PagesAreApart(PageTexts(r), dir);
    k := CutSavesRecover(states, |states| - 1, Jobs(r, dir), main, dir);
  }
}
