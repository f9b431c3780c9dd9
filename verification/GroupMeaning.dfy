/** What the merged group assets say about the lines of the files: names, inherited groups, sources,
    matchers and counts of explicit groups, of files included for a group, and of groups that share
    a name. */
module GroupMeaning {
  import opened Common
  import opened Text
  import opened ConfigLines
  import opened ManagedAssets
  import opened IncludeWalk
  import opened Nesting
  import opened GroupAssets
  import opened GroupResults

  // ---------- Explicit groups ----------

  /** A group of a forest, nested or not, by its begin line and what lies in it. */
  predicate HasGroup(f: GroupTree, head: Directive, body: GroupTree) {
    match f
    case Nil => false
    case Leaf(_, rest) => HasGroup(rest, head, body)
    case Node(h, b, _, rest) => (h == head && b == body) || HasGroup(b, head, body) || HasGroup(rest, head, body)
  }

  /** The number of lines that begin a group of a name. */
  function BeginsIn(ds: seq<Directive>, name: string): nat {
    if ds == [] then 0
    else
      var own := if ds[0].key == "group-begin" && FirstWord(ds[0].value) == name then 1 else 0;
      own + BeginsIn(ds[1..], name)
  }

  function Begins(sources: seq<ConfigSource>, name: string, path: string): nat {
    if sources == [] then 0
    else
      var own := if sources[0].path == path then BeginsIn(Directives(sources[0].text), name) else 0;
      own + Begins(sources[1..], name, path)
  }

  lemma {:induction false} GroupIsRealized(f: GroupTree, head: Directive, body: GroupTree, path: string)
    requires HasGroup(f, head, body)
    ensures AssetOf(head, body, path) in AssetsOf(f, path)
    decreases f
  {
    match f
    case Leaf(_, rest) =>
      GroupIsRealized(rest, head, body, path);
    case Node(h, b, _, rest) =>
      if HasGroup(b, head, body) {
        GroupIsRealized(b, head, body, path);
      } else if HasGroup(rest, head, body) {
        GroupIsRealized(rest, head, body, path);
      }
  }

  lemma {:induction false} BeginsAreCounted(ds: seq<Directive>, name: string, path: string, at: string)
    ensures CountKey(PlaceholdersIn(ds, path), GroupKey(name, at, "")) == if path == at then BeginsIn(ds, name) else 0
  {
    if ds != [] {
      var d, rest, k := ds[0], ds[1..], GroupKey(name, at, "");
      BeginsAreCounted(rest, name, path, at);
      CountAppend(PlaceholderOf(d, path), PlaceholdersIn(rest, path), k);
      if d.key == "group-begin" {
        CountOne(PlaceholderOf(d, path)[0], k);
      } else {
        OtherCounts(d, path, k);
      }
    }
  }

  lemma {:induction false} AllBeginsAreCounted(sources: seq<ConfigSource>, name: string, path: string)
    ensures CountKey(Placeholders(sources), GroupKey(name, path, "")) == Begins(sources, name, path)
  {
    if sources != [] {
      var ds := Directives(sources[0].text);
      AllBeginsAreCounted(sources[1..], name, path);
      BeginsAreCounted(ds, name, sources[0].path, path);
      CountAppend(PlaceholdersIn(ds, sources[0].path), Placeholders(sources[1..]), GroupKey(name, path, ""));
    }
  }

  /** An asset says what the begin line of its group and the lines in the group say: it is named by
      the first word, inherits what follows the option, belongs to the file, and is included from
      none. */
  ghost predicate Describes(a: GroupAsset, head: Directive, body: GroupTree, path: string) {
    && a.name == FirstWord(head.value) && a.source == path && a.includeFile == ""
    && OptionReads(Words(head.value), "-inherit", if a.inherit == "" then None else Some(a.inherit))
    && a.matchers == DirectMatchers(body) && a.ruleCount == DirectCount(body)
  }

  lemma AssetDescribes(head: Directive, body: GroupTree, path: string)
    ensures Describes(AssetOf(head, body, path), head, body, path)
  {
    var words := Words(head.value);
    OptionAfterReads(words, "-inherit");
    OptionIsToken(words, "-inherit");
    WordsAreWords(head.value);
  }

  /** Every explicit group whose name begins no other group of its file has one asset in the result,
      and the asset describes it. */
  lemma ExplicitGroupIsDescribed(sources: seq<ConfigSource>, fs: seq<GroupTree>, i: nat, head: Directive,
                                 body: GroupTree)
    requires AllSpell(sources, fs) && NamedPaths(sources) && i < |sources| && HasGroup(fs[i], head, body)
    requires Begins(sources, FirstWord(head.value), sources[i].path) == 1
    ensures var k, assets := GroupKey(FirstWord(head.value), sources[i].path, ""), MergedAssets(sources);
            && CountKey(assets, k) == 1 && Lookup(assets, k).Some?
            && Describes(Lookup(assets, k).value, head, body, sources[i].path)
  {
    var path := sources[i].path;
    GroupIsRealized(fs[i], head, body, path);
    AssetDescribes(head, body, path);
    AllBeginsAreCounted(sources, FirstWord(head.value), path);
    GroupAssetsAreExact(sources, fs, i, AssetOf(head, body, path));
  }

  lemma ThirdWord(words: seq<string>, option: string, found: Option<string>)
    requires OptionReads(words, option, found) && |words| == 3 && words[1] == option && words[0] != option
    ensures found == Some(words[2])
  {
    assert words[..1] == [words[0]];
    assert FirstAmong(words, option, 1) && words[1] in words[..2];
    assert forall k: nat :: FirstAmong(words, option, k) ==> k == 1;
  }

  /** A name, the option and a parent: the asset inherits the parent. Without the option it inherits
      nothing. */
  lemma InheritIs(a: GroupAsset, head: Directive, body: GroupTree, path: string, name: string, parent: string)
    requires Describes(a, head, body, path) && name != "-inherit"
    ensures Words(head.value) == [name, "-inherit", parent] ==> a.name == name && a.inherit == parent
    ensures "-inherit" !in Words(head.value) ==> a.inherit == ""
  {
    var words := Words(head.value);
    WordsAreWords(head.value);
    if words == [name, "-inherit", parent] {
      ThirdWord(words, "-inherit", if a.inherit == "" then None else Some(a.inherit));
    }
  }

  // ---------- Files included for a group ----------

  lemma {:induction false} ImplicitIsRealized(sources: seq<ConfigSource>, fs: seq<GroupTree>, i: nat)
    requires AllSpell(sources, fs) && i < |sources| && sources[i].implicitGroup.Some?
    ensures ImplicitAsset(sources[i], fs[i])[0] in AllAssets(sources, fs)
  {
    RestSpell(sources, fs);
    if i > 0 {
      ImplicitIsRealized(sources[1..], fs[1..], i - 1);
    }
  }

  /** Lines that include a file under its own path from within that file, for a group. */
  predicate IncludesItself(d: Directive, path: string, group: string) {
    d.key == "conf-file" && NamedOption(d.value, "-group") == Some(group) && FirstWord(d.value) == path
  }

  lemma {:induction false} NoSelfPlaceholder(ds: seq<Directive>, path: string, k: GroupKey)
    requires k.source != "" && k.includeFile == k.source
    requires path == k.source ==> forall d :: d in ds ==> !IncludesItself(d, path, k.name)
    ensures CountKey(PlaceholdersIn(ds, path), k) == 0
  {
    if ds != [] {
      NoSelfPlaceholder(ds[1..], path, k);
      CountAppend(PlaceholderOf(ds[0], path), PlaceholdersIn(ds[1..], path), k);
      var own := PlaceholderOf(ds[0], path);
      assert ds[0] in ds;
      if own != [] {
        CountOne(own[0], k);
        assert own == [own[0]];
      }
    }
  }

  /** No source includes itself for the group, spelled with its own canonical path. */
  predicate NeverItself(sources: seq<ConfigSource>, path: string, group: string) {
    forall s, d :: s in sources && s.path == path && d in Directives(s.text) ==> !IncludesItself(d, path, group)
  }

  lemma {:induction false} NoSelfPlaceholders(sources: seq<ConfigSource>, k: GroupKey)
    requires k.source != "" && k.includeFile == k.source && NeverItself(sources, k.source, k.name)
    ensures CountKey(Placeholders(sources), k) == 0
  {
    if sources != [] {
      var s, rest := sources[0], sources[1..];
      assert s in sources && forall x :: x in rest ==> x in sources;
      NoSelfPlaceholders(rest, k);
      NoSelfPlaceholder(Directives(s.text), s.path, k);
      CountAppend(PlaceholdersIn(Directives(s.text), s.path), Placeholders(rest), k);
    }
  }

  /** A file included for a group has one asset under its own path as source and included file, with
      what lies in the file but in none of its own groups, and it inherits nothing. */
  lemma IncludedGroupIsExact(sources: seq<ConfigSource>, fs: seq<GroupTree>, i: nat, group: string)
    requires AllSpell(sources, fs) && NamedPaths(sources) && DistinctVisits(sources)
    requires i < |sources| && sources[i].implicitGroup == Some(group) && NeverItself(sources, sources[i].path, group)
    ensures var path, assets := sources[i].path, MergedAssets(sources);
            && CountKey(assets, GroupKey(group, path, path)) == 1
            && Lookup(assets, GroupKey(group, path, path)) ==
               Some(GroupAsset(group, "", path, path, DirectMatchers(fs[i]), DirectCount(fs[i])))
  {
    var path := sources[i].path;
    var k, placed, realized := GroupKey(group, path, path), Placeholders(sources), AllAssets(sources, fs);
    var a := ImplicitAsset(sources[i], fs[i])[0];
    assert sources[i] in sources;
    RealizedIs(sources, fs);
    ImplicitIsRealized(sources, fs, i);
    MemberCounts(realized, a);
    ImplicitOnce(sources, fs, k);
    LookupUnique(realized, a);
    NoSelfPlaceholders(sources, k);
    LookupCounts(placed, k);
    MergedLookup(placed, realized, k);
  }

  lemma {:induction false} LineIsPlaced(ds: seq<Directive>, path: string, d: Directive, a: GroupAsset)
    requires d in ds && a in PlaceholderOf(d, path)
    ensures a in PlaceholdersIn(ds, path)
  {
    if d != ds[0] {
      LineIsPlaced(ds[1..], path, d, a);
    }
  }

  lemma {:induction false} SourceIsPlaced(sources: seq<ConfigSource>, i: nat, a: GroupAsset)
    requires i < |sources| && a in PlaceholdersIn(Directives(sources[i].text), sources[i].path)
    ensures a in Placeholders(sources)
  {
    if i > 0 {
      SourceIsPlaced(sources[1..], i - 1, a);
    }
  }

  /** Placeholders of include lines hold nothing but their key. */
  predicate Bare(a: GroupAsset) {
    a.includeFile != "" ==> a.inherit == "" && a.matchers == [] && a.ruleCount == 0
  }

  lemma {:induction false} PlacedAreBare(ds: seq<Directive>, path: string)
    ensures forall a :: a in PlaceholdersIn(ds, path) ==> Bare(a)
  {
    if ds != [] {
      PlacedAreBare(ds[1..], path);
    }
  }

  lemma {:induction false} AllPlacedAreBare(sources: seq<ConfigSource>)
    ensures forall a :: a in Placeholders(sources) ==> Bare(a)
  {
    if sources != [] {
      PlacedAreBare(Directives(sources[0].text), sources[0].path);
      AllPlacedAreBare(sources[1..]);
    }
  }

  lemma {:induction false} LookupIsMember(assets: seq<GroupAsset>, k: GroupKey)
    ensures Lookup(assets, k).Some? ==> Lookup(assets, k).value in assets && KeyFor(Lookup(assets, k).value) == k
  {
    if assets != [] {
      LookupIsMember(assets[1..], k);
    }
  }

  lemma OptionMeansWords(value: string, option: string)
    requires NamedOption(value, option).Some?
    ensures FirstWord(value) != ""
  {
    OptionIsToken(Words(value), option);
    WordsAreWords(value);
    assert FirstWord(value) in Words(value);
  }

  /** The line that includes a file for a group leaves an asset of its own, which nothing fills: named
      by the group, with the including file as its source and the file as it is spelled, no matchers
      and no rules. A line by which a file includes itself under its own path is the exception. */
  lemma IncludeLineStaysEmpty(sources: seq<ConfigSource>, fs: seq<GroupTree>, i: nat, d: Directive, group: string)
    requires AllSpell(sources, fs) && NamedPaths(sources) && DistinctVisits(sources)
    requires i < |sources| && d in Directives(sources[i].text) && d.key == "conf-file"
    requires NamedOption(d.value, "-group") == Some(group) && FirstWord(d.value) != sources[i].path
    ensures Lookup(MergedAssets(sources), GroupKey(group, sources[i].path, FirstWord(d.value))) ==
            Some(GroupAsset(group, "", sources[i].path, FirstWord(d.value), [], 0))
  {
    var a := GroupAsset(group, "", sources[i].path, FirstWord(d.value), [], 0);
    var k, placed, realized := KeyFor(a), Placeholders(sources), AllAssets(sources, fs);
    RealizedIs(sources, fs);
    LineIsPlaced(Directives(sources[i].text), sources[i].path, d, a);
    SourceIsPlaced(sources, i, a);
    OptionMeansWords(d.value, "-group");
    ImplicitOnce(sources, fs, k);
    MergedLookup(placed, realized, k);
    AllPlacedAreBare(sources);
    LookupIsMember(placed, k);
    LookupCounts(placed, k);
    MemberCounts(placed, a);
  }

  // ---------- Groups that share a name ----------

  function WithKey(assets: seq<GroupAsset>, k: GroupKey): seq<GroupAsset> {
    if assets == [] then []
    else (if KeyFor(assets[0]) == k then [assets[0]] else []) + WithKey(assets[1..], k)
  }

  /** The first inherited group that is not empty. */
  function FirstInherit(assets: seq<GroupAsset>): string {
    if assets == [] then "" else if assets[0].inherit != "" then assets[0].inherit else FirstInherit(assets[1..])
  }

  function Given(found: Option<GroupAsset>): seq<GroupAsset> {
    if found.Some? then [found.value] else []
  }

  /** What a merged asset owes to those that share its key: matchers and count are those of the last,
      the inherited group is the first one given. */
  predicate Sums(a: GroupAsset, all: seq<GroupAsset>, k: GroupKey)
    requires all != []
  {
    var last := all[|all| - 1];
    KeyFor(a) == k && a.matchers == last.matchers && a.ruleCount == last.ruleCount && a.inherit == FirstInherit(all)
  }

  lemma InheritOfUpdated(a: GroupAsset, d: GroupAsset, more: seq<GroupAsset>)
    ensures FirstInherit([Updated(a, d)] + more) == FirstInherit([a] + ([d] + more))
  {
    assert ([a] + ([d] + more))[1..] == [d] + more;
    assert ([d] + more)[1..] == more;
    assert ([Updated(a, d)] + more)[1..] == more;
  }

  /** An update sums up as the two assets it is made of. */
  lemma UpdateSums(given: Option<GroupAsset>, d: GroupAsset, more: seq<GroupAsset>, found: Option<GroupAsset>,
                   k: GroupKey)
    requires KeyFor(d) == k && found.Some? && Sums(found.value, [Found(given, d)] + more, k)
    ensures Sums(found.value, Given(given) + ([d] + more), k)
  {
    if given.Some? {
      InheritOfUpdated(given.value, d, more);
    } else {
      assert [] + ([d] + more) == [d] + more;
    }
  }

  /** For every list of realised groups, names repeated or not. */
  lemma {:induction false} MergedSums(assets: seq<GroupAsset>, realized: seq<GroupAsset>, k: GroupKey)
    ensures var all, found := Given(Lookup(assets, k)) + WithKey(realized, k), Lookup(Merged(assets, realized), k);
            if all == [] then found == None else found.Some? && Sums(found.value, all, k)
    decreases realized
  {
    LookupIsMember(assets, k);
    if realized == [] {
      assert Given(Lookup(assets, k)) + [] == Given(Lookup(assets, k));
      if Lookup(assets, k).Some? {
        assert [Lookup(assets, k).value][1..] == [];
      }
    } else {
      var d, rest := realized[0], realized[1..];
      var next := MergeOne(assets, d);
      MergeOneEffect(assets, d, k);
      MergedSums(next, rest, k);
      if KeyFor(d) == k {
        assert WithKey(realized, k) == [d] + WithKey(rest, k);
        UpdateSums(Lookup(assets, k), d, WithKey(rest, k), Lookup(Merged(assets, realized), k), k);
      } else {
        assert WithKey(realized, k) == [] + WithKey(rest, k) == WithKey(rest, k);
      }
    }
  }
}
