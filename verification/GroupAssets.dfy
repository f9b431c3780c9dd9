/** Rule groups of the included files: placeholders in document order, a stack that realises each
    group when it ends, and the merge of the two. */
module GroupAssets {
  import opened Common
  import opened Text
  import opened ConfigLines
  import opened ManagedAssets
  import opened IncludeWalk
  import opened Nesting
  import opened RuleWalkers

  datatype GroupAsset = GroupAsset(name: string, inherit: string, source: string, includeFile: string,
                                   matchers: seq<string>, ruleCount: nat)

  datatype GroupKey = GroupKey(name: string, source: string, includeFile: string)

  function KeyFor(a: GroupAsset): GroupKey {
    GroupKey(a.name, a.source, a.includeFile)
  }

  function Opened(d: Directive, path: string): GroupAsset {
    GroupAsset(FirstWord(d.value), NamedOption(d.value, "-inherit").GetOr(""), path, "", [], 0)
  }

  // ---------- First pass ----------

  function PlaceholderOf(d: Directive, path: string): seq<GroupAsset> {
    if d.key == "group-begin" then [Opened(d, path)]
    else if d.key == "conf-file" && NamedOption(d.value, "-group").Some? then
      [GroupAsset(NamedOption(d.value, "-group").value, "", path, FirstWord(d.value), [], 0)]
    else []
  }

  function PlaceholdersIn(ds: seq<Directive>, path: string): seq<GroupAsset> {
    if ds == [] then [] else PlaceholderOf(ds[0], path) + PlaceholdersIn(ds[1..], path)
  }

  function Placeholders(sources: seq<ConfigSource>): seq<GroupAsset> {
    if sources == [] then []
    else PlaceholdersIn(Directives(sources[0].text), sources[0].path) + Placeholders(sources[1..])
  }

  // ---------- Second pass ----------

  function OnTop(stack: seq<GroupAsset>, matchers: seq<string>, count: nat): seq<GroupAsset> {
    if stack == [] then []
    else
      var top := stack[|stack| - 1];
      Pop(stack) + [top.(matchers := top.matchers + matchers, ruleCount := top.ruleCount + count)]
  }

  function StackAfter(d: Directive, path: string, stack: seq<GroupAsset>): seq<GroupAsset> {
    if d.key == "group-begin" then stack + [Opened(d, path)]
    else if d.key == "group-match" then OnTop(stack, [d.value], 0)
    else if d.key == "group-end" then Pop(stack)
    else OnTop(stack, [], 1)
  }

  function Popped(stack: seq<GroupAsset>): seq<GroupAsset> {
    if stack == [] then [] else [stack[|stack| - 1]]
  }

  function RealizedBy(d: Directive, stack: seq<GroupAsset>): seq<GroupAsset> {
    if d.key == "group-end" then Popped(stack) else []
  }

  function StackAfterAll(ds: seq<Directive>, path: string, stack: seq<GroupAsset>): seq<GroupAsset>
    decreases ds
  {
    if ds == [] then stack else StackAfterAll(ds[1..], path, StackAfter(ds[0], path, stack))
  }

  function RealizedIn(ds: seq<Directive>, path: string, stack: seq<GroupAsset>): seq<GroupAsset>
    decreases ds
  {
    if ds == [] then [] else RealizedBy(ds[0], stack) + RealizedIn(ds[1..], path, StackAfter(ds[0], path, stack))
  }

  function ImplicitStart(s: ConfigSource): seq<GroupAsset> {
    if s.implicitGroup.Some? then [GroupAsset(s.implicitGroup.value, "", s.path, s.path, [], 0)] else []
  }

  function StackAfterSource(s: ConfigSource, stack: seq<GroupAsset>): seq<GroupAsset> {
    var after := StackAfterAll(Directives(s.text), s.path, stack + ImplicitStart(s));
    if s.implicitGroup.Some? then Pop(after) else after
  }

  function RealizedInSource(s: ConfigSource, stack: seq<GroupAsset>): seq<GroupAsset> {
    var start := stack + ImplicitStart(s);
    RealizedIn(Directives(s.text), s.path, start) +
    if s.implicitGroup.Some? then Popped(StackAfterAll(Directives(s.text), s.path, start)) else []
  }

  function Realized(sources: seq<ConfigSource>, stack: seq<GroupAsset>): seq<GroupAsset>
    decreases sources
  {
    if sources == [] then []
    else RealizedInSource(sources[0], stack) + Realized(sources[1..], StackAfterSource(sources[0], stack))
  }

  // ---------- The merge ----------

  function Updated(a: GroupAsset, d: GroupAsset): GroupAsset {
    a.(matchers := d.matchers, ruleCount := d.ruleCount, inherit := if a.inherit == "" then d.inherit else a.inherit)
  }

  function MergeOne(assets: seq<GroupAsset>, d: GroupAsset): seq<GroupAsset> {
    if assets == [] then [d]
    else if KeyFor(assets[0]) == KeyFor(d) then [Updated(assets[0], d)] + assets[1..]
    else [assets[0]] + MergeOne(assets[1..], d)
  }

  function Merged(assets: seq<GroupAsset>, realized: seq<GroupAsset>): seq<GroupAsset>
    decreases realized
  {
    if realized == [] then assets else Merged(MergeOne(assets, realized[0]), realized[1..])
  }

  function MergedAssets(sources: seq<ConfigSource>): seq<GroupAsset> {
    Merged(Placeholders(sources), Realized(sources, []))
  }

  // ---------- The passes as loops ----------

  method CollectPlaceholders(source: ConfigSource) returns (assets: seq<GroupAsset>)
    ensures assets == PlaceholdersIn(Directives(source.text), source.path)
  {
    assets := [];
    var lines := CollectLogicalLines(source.text);
    assert lines[0..] == lines;
    for i := 0 to |lines|
      invariant assets + PlaceholdersIn(DirectivesFrom(lines[i..]), source.path) ==
                PlaceholdersIn(Directives(source.text), source.path)
    {
      DirectivesAt(lines, i);
      ghost var rest := DirectivesFrom(lines[i + 1..]);
      var trimmed := Trim(lines[i]);
      if trimmed == "" || IsComment(trimmed) {
        assert [] + rest == rest;
        continue;
      }
      var d := Directive(KeyOf(trimmed), ValueOf(trimmed));
      assert ([d] + rest)[1..] == rest;
      Reassociate(assets, PlaceholderOf(d, source.path), PlaceholdersIn(rest, source.path));
      if d.key == "group-begin" {
        assets := assets + [Opened(d, source.path)];
      } else if d.key == "conf-file" {
        var groupName := FindNamedOption(d.value, "-group");
        assets := assets + if groupName.Some?
          then [GroupAsset(groupName.value, "", source.path, FirstWord(d.value), [], 0)] else [];
      } else {
        assert assets + [] == assets;
      }
    }
    assert assets + [] == assets;
  }

  method RunSource(source: ConfigSource, given: seq<GroupAsset>)
    returns (stack: seq<GroupAsset>, realized: seq<GroupAsset>)
    ensures stack == StackAfterSource(source, given) && realized == RealizedInSource(source, given)
  {
    stack, realized := given, [];
    if source.implicitGroup.Some? {
      stack := stack + [GroupAsset(source.implicitGroup.value, "", source.path, source.path, [], 0)];
    } else {
      assert given + [] == given;
    }
    ghost var start := stack;
    var lines := CollectLogicalLines(source.text);
    assert lines[0..] == lines;
    for i := 0 to |lines|
      invariant StackAfterAll(DirectivesFrom(lines[i..]), source.path, stack) ==
                StackAfterAll(Directives(source.text), source.path, start)
      invariant realized + RealizedIn(DirectivesFrom(lines[i..]), source.path, stack) ==
                RealizedIn(Directives(source.text), source.path, start)
    {
      DirectivesAt(lines, i);
      ghost var rest := DirectivesFrom(lines[i + 1..]);
      var trimmed := Trim(lines[i]);
      if trimmed == "" || IsComment(trimmed) {
        assert [] + rest == rest;
        continue;
      }
      var d := Directive(KeyOf(trimmed), ValueOf(trimmed));
      assert ([d] + rest)[1..] == rest;
      Reassociate(realized, RealizedBy(d, stack), RealizedIn(rest, source.path, StackAfter(d, source.path, stack)));
      realized := realized + RealizedBy(d, stack);
      stack := StackAfter(d, source.path, stack);
    }
    assert realized + [] == realized;
    if source.implicitGroup.Some? {
      realized := realized + Popped(stack);
      stack := Pop(stack);
    } else {
      assert realized + [] == realized;
    }
  }

  method MergeAsset(assets: seq<GroupAsset>, d: GroupAsset) returns (merged: seq<GroupAsset>)
    ensures merged == MergeOne(assets, d)
  {
    assert assets[0..] == assets;
    for i := 0 to |assets|
      invariant assets[..i] + MergeOne(assets[i..], d) == MergeOne(assets, d)
    {
      assert assets[i..][1..] == assets[i + 1..];
      if KeyFor(assets[i]) == KeyFor(d) {
        return assets[..i] + ([Updated(assets[i], d)] + assets[i + 1..]);
      }
      Reassociate(assets[..i], [assets[i]], MergeOne(assets[i + 1..], d));
      assert assets[..i + 1] == assets[..i] + [assets[i]];
    }
    assert assets[|assets|..] == [] && assets[..|assets|] == assets;
    return assets + [d];
  }

  method BuildRuleGroupAssets(sources: seq<ConfigSource>) returns (assets: seq<GroupAsset>)
    ensures assets == MergedAssets(sources)
  {
    assets := [];
    assert sources[0..] == sources;
    for i := 0 to |sources|
      invariant assets + Placeholders(sources[i..]) == Placeholders(sources)
    {
      assert sources[i..][1..] == sources[i + 1..];
      var more := CollectPlaceholders(sources[i]);
      Reassociate(assets, more, Placeholders(sources[i + 1..]));
      assets := assets + more;
    }
    assert assets + [] == assets;
    var realized: seq<GroupAsset>, stack: seq<GroupAsset> := [], [];
    for i := 0 to |sources|
      invariant realized + Realized(sources[i..], stack) == Realized(sources, [])
    {
      assert sources[i..][1..] == sources[i + 1..];
      var after, more := RunSource(sources[i], stack);
      Reassociate(realized, more, Realized(sources[i + 1..], after));
      realized, stack := realized + more, after;
    }
    assert realized + [] == realized;
    assert realized[0..] == realized;
    for i := 0 to |realized|
      invariant Merged(assets, realized[i..]) == MergedAssets(sources)
    {
      assert realized[i..][1..] == realized[i + 1..];
      assets := MergeAsset(assets, realized[i]);
    }
  }

  // ---------- The tree of groups ----------

  type GroupTree = Forest<Directive>

  function GroupMark(d: Directive): Mark {
    if d.key == "group-begin" then Open else if d.key == "group-end" then Close else Other
  }

  /** The matchers that lie directly in a text, not in the groups nested in it. */
  function DirectMatchers(f: GroupTree): seq<string> {
    match f
    case Nil => []
    case Leaf(d, rest) => (if d.key == "group-match" then [d.value] else []) + DirectMatchers(rest)
    case Node(_, _, _, rest) => DirectMatchers(rest)
  }

  /** The number of ordinary lines that lie directly in a text. */
  function DirectCount(f: GroupTree): nat {
    match f
    case Nil => 0
    case Leaf(d, rest) => (if d.key == "group-match" then 0 else 1) + DirectCount(rest)
    case Node(_, _, _, rest) => DirectCount(rest)
  }

  function AssetOf(head: Directive, body: GroupTree, path: string): GroupAsset {
    Opened(head, path).(matchers := DirectMatchers(body), ruleCount := DirectCount(body))
  }

  function AssetsOf(f: GroupTree, path: string): seq<GroupAsset> {
    match f
    case Nil => []
    case Leaf(_, rest) => AssetsOf(rest, path)
    case Node(head, body, _, rest) => AssetsOf(body, path) + [AssetOf(head, body, path)] + AssetsOf(rest, path)
  }

  lemma OnTopTwice(stack: seq<GroupAsset>, m: seq<string>, c: nat, n: seq<string>, e: nat)
    ensures OnTop(OnTop(stack, m, c), n, e) == OnTop(stack, m + n, c + e)
    ensures OnTop(stack, [], 0) == stack
  {
    if stack != [] {
      var top := stack[|stack| - 1];
      Reassociate(top.matchers, m, n);
      assert top.matchers + [] == top.matchers && Pop(stack) + [top] == stack;
    }
  }

  lemma RunStep(d: Directive, rest: seq<Directive>, path: string, stack: seq<GroupAsset>)
    ensures StackAfterAll([d] + rest, path, stack) == StackAfterAll(rest, path, StackAfter(d, path, stack))
    ensures RealizedIn([d] + rest, path, stack) ==
            RealizedBy(d, stack) + RealizedIn(rest, path, StackAfter(d, path, stack))
  {
    assert ([d] + rest)[1..] == rest;
  }

  lemma LeafStep(d: Directive, path: string, stack: seq<GroupAsset>)
    requires GroupMark(d) == Other
    ensures StackAfter(d, path, stack) ==
            OnTop(stack, if d.key == "group-match" then [d.value] else [], if d.key == "group-match" then 0 else 1)
    ensures RealizedBy(d, stack) == []
  {
  }

  lemma FootStep(foot: Directive, path: string, stack: seq<GroupAsset>, top: GroupAsset)
    requires foot.key == "group-end"
    ensures StackAfter(foot, path, stack + [top]) == stack && RealizedBy(foot, stack + [top]) == [top]
  {
    assert |"group-begin"| == 11 && |"group-end"| == 9;
    assert "group-match"[6] != "group-end"[6];
  }

  lemma FilledTop(stack: seq<GroupAsset>, head: Directive, body: GroupTree, path: string)
    ensures OnTop(stack + [Opened(head, path)], DirectMatchers(body), DirectCount(body)) ==
            stack + [AssetOf(head, body, path)]
  {
    var blank := Opened(head, path);
    assert Pop(stack + [blank]) == stack;
    assert blank.matchers + DirectMatchers(body) == DirectMatchers(body);
  }

  /** Running over a forest realises each of its groups with what lies directly in it, and leaves the
      stack as it was but for what lies directly in the enclosing group. */
  ghost predicate RunsTo(f: GroupTree, path: string, stack: seq<GroupAsset>, rest: seq<Directive>) {
    var after := OnTop(stack, DirectMatchers(f), DirectCount(f));
    && StackAfterAll(Flat(f) + rest, path, stack) == StackAfterAll(rest, path, after)
    && RealizedIn(Flat(f) + rest, path, stack) == AssetsOf(f, path) + RealizedIn(rest, path, after)
  }

  lemma {:induction false} RunForest(f: GroupTree, path: string, stack: seq<GroupAsset>, rest: seq<Directive>)
    requires Proper(f, GroupMark)
    ensures RunsTo(f, path, stack, rest)
    decreases f
  {
    match f
    case Nil =>
      OnTopTwice(stack, [], 0, [], 0);
      assert Flat(f) + rest == rest;
    case Leaf(d, next) =>
      RunForest(next, path, StackAfter(d, path, stack), rest);
      LeafRuns(d, next, path, stack, rest);
    case Node(head, body, foot, next) =>
      RunForest(body, path, stack + [Opened(head, path)], [foot] + (Flat(next) + rest));
      RunForest(next, path, stack, rest);
      NodeRuns(head, body, foot, next, path, stack, rest);
  }

  function LeafMatchers(d: Directive): seq<string> {
    if d.key == "group-match" then [d.value] else []
  }

  function LeafCount(d: Directive): nat {
    if d.key == "group-match" then 0 else 1
  }

  lemma LeafTop(d: Directive, next: GroupTree, path: string, stack: seq<GroupAsset>)
    requires GroupMark(d) == Other
    ensures OnTop(StackAfter(d, path, stack), DirectMatchers(next), DirectCount(next)) ==
            OnTop(stack, DirectMatchers(Leaf(d, next)), DirectCount(Leaf(d, next)))
    ensures RealizedBy(d, stack) == []
  {
    LeafStep(d, path, stack);
    OnTopTwice(stack, LeafMatchers(d), LeafCount(d), DirectMatchers(next), DirectCount(next));
  }

  lemma LeafRuns(d: Directive, next: GroupTree, path: string, stack: seq<GroupAsset>, rest: seq<Directive>)
    requires GroupMark(d) == Other && RunsTo(next, path, StackAfter(d, path, stack), rest)
    ensures RunsTo(Leaf(d, next), path, stack, rest)
  {
    Reassociate([d], Flat(next), rest);
    RunStep(d, Flat(next) + rest, path, stack);
    LeafTop(d, next, path, stack);
    var realized := RealizedIn(Flat(next) + rest, path, StackAfter(d, path, stack));
    assert [] + realized == realized;
  }

  lemma NodeRuns(head: Directive, body: GroupTree, foot: Directive, next: GroupTree, path: string,
                 stack: seq<GroupAsset>, rest: seq<Directive>)
    requires GroupMark(head) == Open && GroupMark(foot) == Close
    requires RunsTo(body, path, stack + [Opened(head, path)], [foot] + (Flat(next) + rest)) &&
             RunsTo(next, path, stack, rest)
    ensures RunsTo(Node(head, body, foot, next), path, stack, rest)
  {
    var asset := AssetOf(head, body, path);
    var tail := Flat(next) + rest;
    var inner := [foot] + tail;
    Reassociate([head] + Flat(body), [foot] + Flat(next), rest);
    Reassociate([foot], Flat(next), rest);
    Reassociate([head], Flat(body), inner);
    RunStep(head, Flat(body) + inner, path, stack);
    FilledTop(stack, head, body, path);
    RunStep(foot, tail, path, stack + [asset]);
    FootStep(foot, path, stack, asset);
    var after := RealizedIn(rest, path, OnTop(stack, DirectMatchers(next), DirectCount(next)));
    Reassociate(AssetsOf(body, path), [asset], AssetsOf(next, path) + after);
    Reassociate(AssetsOf(body, path) + [asset], AssetsOf(next, path), after);
    assert [] + RealizedIn(Flat(body) + inner, path, stack + [Opened(head, path)]) ==
           RealizedIn(Flat(body) + inner, path, stack + [Opened(head, path)]);
  }

  /** The asset of the group a whole file is included for. */
  function ImplicitAsset(s: ConfigSource, f: GroupTree): seq<GroupAsset> {
    if s.implicitGroup.Some? then
      [GroupAsset(s.implicitGroup.value, "", s.path, s.path, DirectMatchers(f), DirectCount(f))]
    else []
  }

  ghost predicate Spells(f: GroupTree, s: ConfigSource) {
    Proper(f, GroupMark) && Flat(f) == Directives(s.text)
  }

  /** A source with balanced groups leaves the stack as it found it. */
  lemma SourceRestoresStack(s: ConfigSource, f: GroupTree, stack: seq<GroupAsset>)
    requires Spells(f, s)
    ensures StackAfterSource(s, stack) ==
            if s.implicitGroup.Some? then stack else OnTop(stack, DirectMatchers(f), DirectCount(f))
    ensures RealizedInSource(s, stack) == AssetsOf(f, s.path) + ImplicitAsset(s, f)
  {
    var start := stack + ImplicitStart(s);
    assert Flat(f) + [] == Flat(f);
    RunForest(f, s.path, start, []);
    assert AssetsOf(f, s.path) + [] == AssetsOf(f, s.path);
    if s.implicitGroup.Some? {
      var blank := ImplicitStart(s)[0];
      assert Pop(stack + [blank]) == stack;
      assert blank.matchers + DirectMatchers(f) == DirectMatchers(f);
      var filled := ImplicitAsset(s, f)[0];
      assert OnTop(start, DirectMatchers(f), DirectCount(f)) == stack + [filled];
      assert Pop(stack + [filled]) == stack;
    } else {
      assert stack + [] == stack;
    }
  }
}
