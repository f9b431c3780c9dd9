/** What the merged group assets hold: one exact asset for every explicit group, and rule counts that
    add up to the ordinary lines inside some group. */
module GroupResults {
  import opened Common
  import opened Text
  import opened ConfigLines
  import opened ManagedAssets
  import opened IncludeWalk
  import opened Nesting
  import opened GroupAssets

  // ---------- Counting and finding by key ----------

  function Holding(a: GroupAsset, k: GroupKey): nat {
    if KeyFor(a) == k then 1 else 0
  }

  function CountKey(assets: seq<GroupAsset>, k: GroupKey): nat {
    if assets == [] then 0 else Holding(assets[0], k) + CountKey(assets[1..], k)
  }

  function Lookup(assets: seq<GroupAsset>, k: GroupKey): Option<GroupAsset> {
    if assets == [] then None else if KeyFor(assets[0]) == k then Some(assets[0]) else Lookup(assets[1..], k)
  }

  function SumCounts(assets: seq<GroupAsset>): nat {
    if assets == [] then 0 else assets[0].ruleCount + SumCounts(assets[1..])
  }

  lemma {:induction false} CountAppend(a: seq<GroupAsset>, b: seq<GroupAsset>, k: GroupKey)
    ensures CountKey(a + b, k) == CountKey(a, k) + CountKey(b, k)
  {
    if a == [] {
      assert a + b == b;
    } else {
      assert (a + b)[1..] == a[1..] + b;
      CountAppend(a[1..], b, k);
    }
  }

  lemma {:induction false} SumAppend(a: seq<GroupAsset>, b: seq<GroupAsset>)
    ensures SumCounts(a + b) == SumCounts(a) + SumCounts(b)
  {
    if a == [] {
      assert a + b == b;
    } else {
      assert (a + b)[1..] == a[1..] + b;
      SumAppend(a[1..], b);
    }
  }

  lemma CountOne(a: GroupAsset, k: GroupKey)
    ensures CountKey([a], k) == Holding(a, k) && SumCounts([a]) == a.ruleCount
  {
    assert [a][1..] == [];
  }

  lemma {:induction false} MemberCounts(assets: seq<GroupAsset>, a: GroupAsset)
    requires a in assets
    ensures CountKey(assets, KeyFor(a)) > 0
  {
    if a != assets[0] {
      MemberCounts(assets[1..], a);
    }
  }

  lemma {:induction false} LookupCounts(assets: seq<GroupAsset>, k: GroupKey)
    ensures Lookup(assets, k).Some? <==> CountKey(assets, k) > 0
  {
    if assets != [] {
      LookupCounts(assets[1..], k);
    }
  }

  lemma {:induction false} LookupUnique(assets: seq<GroupAsset>, a: GroupAsset)
    requires a in assets && CountKey(assets, KeyFor(a)) == 1
    ensures Lookup(assets, KeyFor(a)) == Some(a)
  {
    if a != assets[0] {
      MemberCounts(assets[1..], a);
      LookupUnique(assets[1..], a);
    }
  }

  // ---------- The merge ----------

  function Found(given: Option<GroupAsset>, d: GroupAsset): GroupAsset {
    if given.Some? then Updated(given.value, d) else d
  }

  function OldCount(found: Option<GroupAsset>): nat {
    if found.Some? then found.value.ruleCount else 0
  }

  lemma {:induction false} MergeOneEffect(assets: seq<GroupAsset>, d: GroupAsset, k: GroupKey)
    ensures Lookup(MergeOne(assets, d), k) ==
            if k == KeyFor(d) then Some(Found(Lookup(assets, k), d)) else Lookup(assets, k)
    ensures CountKey(MergeOne(assets, d), k) ==
            if k == KeyFor(d) && CountKey(assets, k) == 0 then 1 else CountKey(assets, k)
  {
    if assets == [] {
      CountOne(d, k);
    } else {
      var x, rest := assets[0], assets[1..];
      if KeyFor(x) == KeyFor(d) {
        assert MergeOne(assets, d)[1..] == rest;
      } else {
        MergeOneEffect(rest, d, k);
        assert MergeOne(assets, d)[1..] == MergeOne(rest, d);
      }
    }
  }

  lemma {:induction false} MergeOneSum(assets: seq<GroupAsset>, d: GroupAsset)
    ensures SumCounts(MergeOne(assets, d)) + OldCount(Lookup(assets, KeyFor(d))) == SumCounts(assets) + d.ruleCount
  {
    if assets == [] {
      CountOne(d, KeyFor(d));
    } else {
      var x, rest := assets[0], assets[1..];
      if KeyFor(x) == KeyFor(d) {
        assert MergeOne(assets, d)[1..] == rest;
      } else {
        MergeOneSum(rest, d);
        assert MergeOne(assets, d)[1..] == MergeOne(rest, d);
      }
    }
  }

  lemma {:induction false} MergedLookup(assets: seq<GroupAsset>, realized: seq<GroupAsset>, k: GroupKey)
    requires CountKey(realized, k) <= 1
    ensures CountKey(realized, k) == 0 ==>
              Lookup(Merged(assets, realized), k) == Lookup(assets, k) &&
              CountKey(Merged(assets, realized), k) == CountKey(assets, k)
    ensures CountKey(realized, k) == 1 ==>
              && Lookup(realized, k).Some?
              && Lookup(Merged(assets, realized), k) == Some(Found(Lookup(assets, k), Lookup(realized, k).value))
              && CountKey(Merged(assets, realized), k) == if CountKey(assets, k) == 0 then 1 else CountKey(assets, k)
    decreases realized
  {
    LookupCounts(realized, k);
    if realized != [] {
      MergeOneEffect(assets, realized[0], k);
      MergedLookup(MergeOne(assets, realized[0]), realized[1..], k);
    }
  }

  lemma {:induction false} MergedSum(assets: seq<GroupAsset>, realized: seq<GroupAsset>)
    requires forall k :: CountKey(realized, k) <= 1
    requires forall k :: CountKey(realized, k) > 0 ==> OldCount(Lookup(assets, k)) == 0
    ensures SumCounts(Merged(assets, realized)) == SumCounts(assets) + SumCounts(realized)
    decreases realized
  {
    if realized != [] {
      var d, rest := realized[0], realized[1..];
      var next := MergeOne(assets, d);
      assert CountKey(realized, KeyFor(d)) > 0;
      MergeOneSum(assets, d);
      forall k ensures CountKey(rest, k) <= 1 && (CountKey(rest, k) > 0 ==> OldCount(Lookup(next, k)) == 0) {
        MergeOneEffect(assets, d, k);
        assert CountKey(realized, k) == Holding(d, k) + CountKey(rest, k);
      }
      MergedSum(next, rest);
    }
  }

  // ---------- Placeholders and realised groups ----------

  lemma {:induction false} PlaceholdersAppend(a: seq<Directive>, b: seq<Directive>, path: string)
    ensures PlaceholdersIn(a + b, path) == PlaceholdersIn(a, path) + PlaceholdersIn(b, path)
  {
    if a == [] {
      assert a + b == b;
    } else {
      assert (a + b)[1..] == a[1..] + b;
      PlaceholdersAppend(a[1..], b, path);
      Reassociate(PlaceholderOf(a[0], path), PlaceholdersIn(a[1..], path), PlaceholdersIn(b, path));
    }
  }

  lemma PlaceholderAlone(d: Directive, path: string)
    ensures PlaceholdersIn([d], path) == PlaceholderOf(d, path)
  {
    var ds := [d];
    assert ds[1..] == [];
    assert PlaceholderOf(d, path) + [] == PlaceholderOf(d, path);
  }

  lemma OtherPlaceholder(d: Directive, path: string)
    requires d.key != "group-begin"
    ensures forall a :: a in PlaceholderOf(d, path) ==> a.includeFile != "" && a.ruleCount == 0
    ensures |PlaceholderOf(d, path)| <= 1
  {
    if d.key == "conf-file" && NamedOption(d.value, "-group").Some? {
      OptionIsToken(Words(d.value), "-group");
      WordsAreWords(d.value);
      assert FirstWord(d.value) in Words(d.value);
    }
  }

  lemma OtherCounts(d: Directive, path: string, k: GroupKey)
    requires d.key != "group-begin" && k.includeFile == ""
    ensures CountKey(PlaceholderOf(d, path), k) == 0
  {
    OtherPlaceholder(d, path);
    var ps := PlaceholderOf(d, path);
    if ps != [] {
      assert ps[1..] == [] && ps[0] in ps;
    }
  }

  lemma KeysOfBrackets()
    ensures "group-begin" != "group-end"
  {
    assert |"group-begin"| == 11 && |"group-end"| == 9;
  }

  function PlaceholdersOf(f: GroupTree, path: string): seq<GroupAsset> {
    PlaceholdersIn(Flat(f), path)
  }

  lemma NodePlaceholders(head: Directive, body: GroupTree, foot: Directive, next: GroupTree, path: string)
    requires head.key == "group-begin" && foot.key == "group-end"
    ensures PlaceholdersOf(Node(head, body, foot, next), path) ==
            [Opened(head, path)] + PlaceholdersOf(body, path) + PlaceholdersOf(next, path)
  {
    KeysOfBrackets();
    assert "conf-file"[0] != "group-end"[0];
    PlaceholdersAppend([head] + Flat(body), [foot] + Flat(next), path);
    PlaceholdersAppend([head], Flat(body), path);
    PlaceholdersAppend([foot], Flat(next), path);
    PlaceholderAlone(head, path);
    PlaceholderAlone(foot, path);
    var inner, after := PlaceholdersOf(body, path), PlaceholdersOf(next, path);
    assert PlaceholderOf(foot, path) == [] && [] + after == after;
  }

  /** For every explicit key there are as many realised groups as placeholders. */
  lemma {:induction false} ExplicitCounts(f: GroupTree, path: string, k: GroupKey)
    requires Proper(f, GroupMark) && k.includeFile == ""
    ensures CountKey(AssetsOf(f, path), k) == CountKey(PlaceholdersOf(f, path), k)
    decreases f
  {
    match f
    case Nil =>
    case Leaf(d, rest) =>
      ExplicitCounts(rest, path, k);
      PlaceholdersAppend([d], Flat(rest), path);
      PlaceholderAlone(d, path);
      CountAppend(PlaceholderOf(d, path), PlaceholdersOf(rest, path), k);
      OtherCounts(d, path, k);
    case Node(head, body, foot, next) =>
      ExplicitCounts(body, path, k);
      ExplicitCounts(next, path, k);
      KeysOfBrackets();
      NodePlaceholders(head, body, foot, next, path);
      var asset, begin := AssetOf(head, body, path), Opened(head, path);
      CountAppend(AssetsOf(body, path) + [asset], AssetsOf(next, path), k);
      CountAppend(AssetsOf(body, path), [asset], k);
      CountAppend([begin] + PlaceholdersOf(body, path), PlaceholdersOf(next, path), k);
      CountAppend([begin], PlaceholdersOf(body, path), k);
      CountOne(asset, k);
      CountOne(begin, k);
  }

  function Stripped(a: GroupAsset): GroupAsset {
    a.(matchers := [], ruleCount := 0)
  }

  lemma {:induction false} RealizedHavePlaceholders(f: GroupTree, path: string, a: GroupAsset)
    requires Proper(f, GroupMark) && a in AssetsOf(f, path)
    ensures Stripped(a) in PlaceholdersOf(f, path) && a.includeFile == "" && a.source == path
    decreases f
  {
    match f
    case Leaf(d, rest) =>
      RealizedHavePlaceholders(rest, path, a);
      PlaceholdersAppend([d], Flat(rest), path);
    case Node(head, body, foot, next) =>
      KeysOfBrackets();
      NodePlaceholders(head, body, foot, next, path);
      if a in AssetsOf(body, path) {
        RealizedHavePlaceholders(body, path, a);
      } else if a in AssetsOf(next, path) {
        RealizedHavePlaceholders(next, path, a);
      }
  }

  // ---------- All sources ----------

  ghost predicate AllSpell(sources: seq<ConfigSource>, fs: seq<GroupTree>) {
    |fs| == |sources| && forall i :: 0 <= i < |sources| ==> Spells(fs[i], sources[i])
  }

  lemma {:induction false} BalancedSourcesSpell(sources: seq<ConfigSource>) returns (fs: seq<GroupTree>)
    requires forall s :: s in sources ==> Balanced(Directives(s.text), GroupMark)
    ensures AllSpell(sources, fs)
  {
    fs := [];
    if sources != [] {
      assert sources[0] in sources;
      var f := ForestOf(Directives(sources[0].text), GroupMark);
      var gs := BalancedSourcesSpell(sources[1..]);
      fs := [f] + gs;
      forall i | 0 <= i < |sources| ensures Spells(fs[i], sources[i]) {
        if i > 0 {
          assert fs[i] == gs[i - 1] && sources[i] == sources[1..][i - 1];
        }
      }
    }
  }

  function SourceAssets(s: ConfigSource, f: GroupTree): seq<GroupAsset> {
    AssetsOf(f, s.path) + ImplicitAsset(s, f)
  }

  function AllAssets(sources: seq<ConfigSource>, fs: seq<GroupTree>): seq<GroupAsset>
    requires |fs| == |sources|
  {
    if sources == [] then [] else SourceAssets(sources[0], fs[0]) + AllAssets(sources[1..], fs[1..])
  }

  lemma RestSpell(sources: seq<ConfigSource>, fs: seq<GroupTree>)
    requires AllSpell(sources, fs) && sources != []
    ensures AllSpell(sources[1..], fs[1..]) && Spells(fs[0], sources[0])
  {
  }

  lemma {:induction false} RealizedIs(sources: seq<ConfigSource>, fs: seq<GroupTree>)
    requires AllSpell(sources, fs)
    ensures Realized(sources, []) == AllAssets(sources, fs)
  {
    if sources != [] {
      RestSpell(sources, fs);
      SourceRestoresStack(sources[0], fs[0], []);
      RealizedIs(sources[1..], fs[1..]);
    }
  }

  /** No (name, source) pair begins two groups. */
  ghost predicate DistinctGroups(sources: seq<ConfigSource>) {
    forall k: GroupKey :: k.includeFile == "" ==> CountKey(Placeholders(sources), k) <= 1
  }

  ghost predicate NamedPaths(sources: seq<ConfigSource>) {
    forall s :: s in sources ==> s.path != ""
  }

  ghost predicate DistinctVisits(sources: seq<ConfigSource>) {
    forall i, j :: 0 <= i < j < |sources| ==> VisitOf(sources[i]) != VisitOf(sources[j])
  }

  lemma ImplicitCount(s: ConfigSource, f: GroupTree, k: GroupKey)
    ensures CountKey(ImplicitAsset(s, f), k) ==
            if s.implicitGroup.Some? && k == GroupKey(s.implicitGroup.value, s.path, s.path) then 1 else 0
  {
    if s.implicitGroup.Some? {
      CountOne(ImplicitAsset(s, f)[0], k);
    }
  }

  lemma {:induction false} ExplicitCountsAll(sources: seq<ConfigSource>, fs: seq<GroupTree>, k: GroupKey)
    requires AllSpell(sources, fs) && NamedPaths(sources) && k.includeFile == ""
    ensures CountKey(AllAssets(sources, fs), k) == CountKey(Placeholders(sources), k)
  {
    if sources != [] {
      var s, f := sources[0], fs[0];
      RestSpell(sources, fs);
      assert s in sources;
      ExplicitCountsAll(sources[1..], fs[1..], k);
      ExplicitCounts(f, s.path, k);
      ImplicitCount(s, f, k);
      CountAppend(SourceAssets(s, f), AllAssets(sources[1..], fs[1..]), k);
      CountAppend(AssetsOf(f, s.path), ImplicitAsset(s, f), k);
      CountAppend(PlaceholdersIn(Directives(s.text), s.path), Placeholders(sources[1..]), k);
    }
  }

  lemma {:induction false} CountMember(assets: seq<GroupAsset>, k: GroupKey)
    ensures CountKey(assets, k) > 0 ==> exists a :: a in assets && KeyFor(a) == k
  {
    if assets != [] {
      CountMember(assets[1..], k);
      assert assets[0] in assets;
    }
  }

  lemma NoExplicit(f: GroupTree, path: string, k: GroupKey)
    requires Proper(f, GroupMark) && k.includeFile != ""
    ensures CountKey(AssetsOf(f, path), k) == 0
  {
    CountMember(AssetsOf(f, path), k);
    if CountKey(AssetsOf(f, path), k) > 0 {
      var a :| a in AssetsOf(f, path) && KeyFor(a) == k;
      RealizedHavePlaceholders(f, path, a);
    }
  }

  /** The key of an included file's group, if it is included for one. */
  ghost predicate IncludedFor(s: ConfigSource, k: GroupKey) {
    s.implicitGroup == Some(k.name) && s.path == k.source == k.includeFile
  }

  lemma IncludedOnce(sources: seq<ConfigSource>, k: GroupKey)
    requires sources != [] && DistinctVisits(sources)
    ensures IncludedFor(sources[0], k) ==> forall x :: x in sources[1..] ==> !IncludedFor(x, k)
    ensures sources[0] in sources && forall x :: x in sources[1..] ==> x in sources
    ensures DistinctVisits(sources[1..])
  {
    forall i, j | 0 <= i < j < |sources[1..]| ensures VisitOf(sources[1..][i]) != VisitOf(sources[1..][j]) {
      assert VisitOf(sources[i + 1]) != VisitOf(sources[j + 1]);
    }
    if IncludedFor(sources[0], k) {
      forall x | x in sources[1..] ensures !IncludedFor(x, k) {
        var j :| 0 <= j < |sources[1..]| && sources[1..][j] == x;
        assert VisitOf(sources[0]) != VisitOf(sources[j + 1]);
      }
    }
  }

  lemma {:induction false} ImplicitOnce(sources: seq<ConfigSource>, fs: seq<GroupTree>, k: GroupKey)
    requires AllSpell(sources, fs) && DistinctVisits(sources) && k.includeFile != ""
    ensures CountKey(AllAssets(sources, fs), k) <= 1
    ensures CountKey(AllAssets(sources, fs), k) > 0 ==> exists s :: s in sources && IncludedFor(s, k)
  {
    if sources != [] {
      var s, f := sources[0], fs[0];
      RestSpell(sources, fs);
      IncludedOnce(sources, k);
      ImplicitOnce(sources[1..], fs[1..], k);
      NoExplicit(f, s.path, k);
      ImplicitCount(s, f, k);
      CountAppend(SourceAssets(s, f), AllAssets(sources[1..], fs[1..]), k);
      CountAppend(AssetsOf(f, s.path), ImplicitAsset(s, f), k);
    }
  }

  // ---------- Exact assets ----------

  lemma {:induction false} AssetIsRealized(sources: seq<ConfigSource>, fs: seq<GroupTree>, i: nat, a: GroupAsset)
    requires AllSpell(sources, fs) && i < |sources| && a in AssetsOf(fs[i], sources[i].path)
    ensures a in AllAssets(sources, fs) && Stripped(a) in Placeholders(sources) && a.includeFile == ""
  {
    RestSpell(sources, fs);
    if i == 0 {
      RealizedHavePlaceholders(fs[0], sources[0].path, a);
    } else {
      AssetIsRealized(sources[1..], fs[1..], i - 1, a);
    }
  }

  /** The merge adds an asset for a key only when there was none. */
  lemma {:induction false} MergedCount(assets: seq<GroupAsset>, realized: seq<GroupAsset>, k: GroupKey)
    ensures CountKey(Merged(assets, realized), k) ==
            if CountKey(assets, k) == 0 && CountKey(realized, k) > 0 then 1 else CountKey(assets, k)
    decreases realized
  {
    if realized != [] {
      MergeOneEffect(assets, realized[0], k);
      MergedCount(MergeOne(assets, realized[0]), realized[1..], k);
    }
  }

  /** An explicit group has exactly one asset in the result, with exactly the matchers and the number
      of ordinary lines that lie directly in it, if and only if no other group with its name begins
      in its file. */
  lemma GroupAssetsAreExact(sources: seq<ConfigSource>, fs: seq<GroupTree>, i: nat, a: GroupAsset)
    requires AllSpell(sources, fs) && NamedPaths(sources)
    requires i < |sources| && a in AssetsOf(fs[i], sources[i].path)
    ensures Lookup(MergedAssets(sources), KeyFor(a)) == Some(a) && CountKey(MergedAssets(sources), KeyFor(a)) == 1
       <==> CountKey(Placeholders(sources), KeyFor(a)) == 1
  {
    var placed, k := Placeholders(sources), KeyFor(a);
    AssetIsRealized(sources, fs, i, a);
    RealizedIs(sources, fs);
    ExplicitCountsAll(sources, fs, k);
    MemberCounts(placed, Stripped(a));
    MergedCount(placed, AllAssets(sources, fs), k);
    if CountKey(placed, k) == 1 {
      LookupUnique(placed, Stripped(a));
      LookupUnique(AllAssets(sources, fs), a);
      MergedLookup(placed, AllAssets(sources, fs), k);
    }
  }

  // ---------- Rule counts ----------

  /** The ordinary lines at a depth above zero. */
  function Inside(ds: seq<Directive>, depth: nat): nat
    decreases ds
  {
    if ds == [] then 0
    else if ds[0].key == "group-begin" then Inside(ds[1..], depth + 1)
    else if ds[0].key == "group-end" then Inside(ds[1..], if depth > 0 then depth - 1 else 0)
    else (if depth > 0 && ds[0].key != "group-match" then 1 else 0) + Inside(ds[1..], depth)
  }

  function TotalInside(sources: seq<ConfigSource>): nat {
    if sources == [] then 0
    else
      Inside(Directives(sources[0].text), if sources[0].implicitGroup.Some? then 1 else 0) + TotalInside(sources[1..])
  }

  lemma InsideStep(d: Directive, rest: seq<Directive>, depth: nat)
    ensures GroupMark(d) == Open ==> Inside([d] + rest, depth) == Inside(rest, depth + 1)
    ensures GroupMark(d) == Close ==> Inside([d] + rest, depth) == Inside(rest, if depth > 0 then depth - 1 else 0)
    ensures GroupMark(d) == Other ==>
              Inside([d] + rest, depth) == (if depth > 0 && d.key != "group-match" then 1 else 0) + Inside(rest, depth)
  {
    assert ([d] + rest)[1..] == rest;
    KeysOfBrackets();
  }

  lemma {:induction false} InsideForest(f: GroupTree, path: string, rest: seq<Directive>, depth: nat)
    requires Proper(f, GroupMark)
    ensures Inside(Flat(f) + rest, depth) ==
            SumCounts(AssetsOf(f, path)) + (if depth > 0 then DirectCount(f) else 0) + Inside(rest, depth)
    decreases f
  {
    match f
    case Nil =>
      assert Flat(f) + rest == rest;
    case Leaf(d, next) =>
      Reassociate([d], Flat(next), rest);
      InsideStep(d, Flat(next) + rest, depth);
      InsideForest(next, path, rest, depth);
    case Node(head, body, foot, next) =>
      var inner := [foot] + (Flat(next) + rest);
      Reassociate([head] + Flat(body), [foot] + Flat(next), rest);
      Reassociate([foot], Flat(next), rest);
      Reassociate([head], Flat(body), inner);
      InsideStep(head, Flat(body) + inner, depth);
      InsideForest(body, path, inner, depth + 1);
      InsideStep(foot, Flat(next) + rest, depth + 1);
      InsideForest(next, path, rest, depth);
      var asset := AssetOf(head, body, path);
      SumAppend(AssetsOf(body, path) + [asset], AssetsOf(next, path));
      SumAppend(AssetsOf(body, path), [asset]);
      CountOne(asset, KeyFor(asset));
  }

  lemma {:induction false} AllAssetsSum(sources: seq<ConfigSource>, fs: seq<GroupTree>)
    requires AllSpell(sources, fs)
    ensures SumCounts(AllAssets(sources, fs)) == TotalInside(sources)
  {
    if sources != [] {
      var s, f := sources[0], fs[0];
      RestSpell(sources, fs);
      AllAssetsSum(sources[1..], fs[1..]);
      SumAppend(SourceAssets(s, f), AllAssets(sources[1..], fs[1..]));
      SumAppend(AssetsOf(f, s.path), ImplicitAsset(s, f));
      InsideForest(f, s.path, [], if s.implicitGroup.Some? then 1 else 0);
      assert Flat(f) + [] == Flat(f);
      if s.implicitGroup.Some? {
        CountOne(ImplicitAsset(s, f)[0], KeyFor(ImplicitAsset(s, f)[0]));
      }
    }
  }

  lemma {:induction false} EmptyCounts(assets: seq<GroupAsset>, k: GroupKey)
    requires forall a :: a in assets ==> a.ruleCount == 0
    ensures SumCounts(assets) == 0 && OldCount(Lookup(assets, k)) == 0
  {
    if assets != [] {
      assert assets[0] in assets;
      EmptyCounts(assets[1..], k);
    }
  }

  lemma {:induction false} PlaceholdersCountNothing(ds: seq<Directive>, path: string)
    ensures forall a :: a in PlaceholdersIn(ds, path) ==> a.ruleCount == 0
  {
    if ds != [] {
      PlaceholdersCountNothing(ds[1..], path);
    }
  }

  lemma {:induction false} AllPlaceholdersCountNothing(sources: seq<ConfigSource>)
    ensures forall a :: a in Placeholders(sources) ==> a.ruleCount == 0
  {
    if sources != [] {
      PlaceholdersCountNothing(Directives(sources[0].text), sources[0].path);
      AllPlaceholdersCountNothing(sources[1..]);
    }
  }

  /** The rule counts of all assets add up to the ordinary lines inside some explicit or implicit
      group: none is counted twice and none is lost in the merge. */
  lemma RuleCountsAddUp(sources: seq<ConfigSource>, fs: seq<GroupTree>)
    requires AllSpell(sources, fs) && NamedPaths(sources) && DistinctGroups(sources) && DistinctVisits(sources)
    ensures SumCounts(MergedAssets(sources)) == TotalInside(sources)
  {
    var placed, realized := Placeholders(sources), AllAssets(sources, fs);
    RealizedIs(sources, fs);
    AllPlaceholdersCountNothing(sources);
    forall k ensures CountKey(realized, k) <= 1 && OldCount(Lookup(placed, k)) == 0 {
      EmptyCounts(placed, k);
      if k.includeFile == "" {
        ExplicitCountsAll(sources, fs, k);
      } else {
        ImplicitOnce(sources, fs, k);
      }
    }
    EmptyCounts(placed, GroupKey("", "", ""));
    MergedSum(placed, realized);
    AllAssetsSum(sources, fs);
  }
}
