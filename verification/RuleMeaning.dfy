/** Where the rules of balanced files belong: to the innermost group around them, to the group their
    file is included for, or to none. */
module RuleMeaning {
  import opened Common
  import opened Text
  import opened ConfigLines
  import opened ManagedAssets
  import opened IncludeWalk
  import opened Nesting
  import opened RuleWalkers
  import opened GroupAssets
  import opened GroupResults

  /** A line and the name of the innermost group around it. */
  datatype Placed = Placed(line: Directive, group: string)

  function FirstOr(words: seq<string>): string {
    if words == [] then "" else words[0]
  }

  /** The lines of a forest in document order, a group being named by the first word of its begin line. */
  function PlacedIn(f: GroupTree, group: string): seq<Placed> {
    match f
    case Nil => []
    case Leaf(d, rest) => [Placed(d, group)] + PlacedIn(rest, group)
    case Node(head, body, _, rest) => PlacedIn(body, FirstOr(Words(head.value))) + PlacedIn(rest, group)
  }

  function AllPlaced(s: ConfigSource, f: GroupTree): seq<Placed> {
    PlacedIn(f, if s.implicitGroup.Some? then s.implicitGroup.value else "")
  }

  predicate IsClientRule(p: Placed) {
    p.line.key == "client-rules"
  }

  predicate IsIpRule(p: Placed) {
    IsIpRuleKey(p.line.key)
  }

  function Kept(ps: seq<Placed>, kind: Placed -> bool): seq<Placed> {
    if ps == [] then [] else (if kind(ps[0]) then [ps[0]] else []) + Kept(ps[1..], kind)
  }

  lemma {:induction false} KeptAppend(a: seq<Placed>, b: seq<Placed>, kind: Placed -> bool)
    ensures Kept(a + b, kind) == Kept(a, kind) + Kept(b, kind)
  {
    if a == [] {
      assert a + b == b;
    } else {
      assert (a + b)[1..] == a[1..] + b;
      KeptAppend(a[1..], b, kind);
      Reassociate(if kind(a[0]) then [a[0]] else [], Kept(a[1..], kind), Kept(b, kind));
    }
  }

  /** A client rule says its matcher, its group and its file. */
  predicate ClientSays(a: ClientRuleAsset, p: Placed, path: string) {
    a.matcher == p.line.value && a.groupName == p.group && a.source == path
  }

  /** An ip rule says its kind, its target and options, its group and its file. */
  predicate IpRuleSays(a: IpRuleAsset, p: Placed, path: string) {
    && a.ruleType == p.line.key && (a.target, a.options) == SplitTargetOptions(p.line.value)
    && a.groupName == p.group && a.source == path
  }

  predicate ClientsSay(assets: seq<ClientRuleAsset>, ps: seq<Placed>, path: string) {
    |assets| == |ps| && forall i :: 0 <= i < |ps| ==> ClientSays(assets[i], ps[i], path)
  }

  predicate IpRulesSay(assets: seq<IpRuleAsset>, ps: seq<Placed>, path: string) {
    |assets| == |ps| && forall i :: 0 <= i < |ps| ==> IpRuleSays(assets[i], ps[i], path)
  }

  lemma ClientsJoin(a: seq<ClientRuleAsset>, p: seq<Placed>, b: seq<ClientRuleAsset>, q: seq<Placed>, path: string)
    requires ClientsSay(a, p, path) && ClientsSay(b, q, path)
    ensures ClientsSay(a + b, p + q, path)
  {
  }

  lemma IpRulesJoin(a: seq<IpRuleAsset>, p: seq<Placed>, b: seq<IpRuleAsset>, q: seq<Placed>, path: string)
    requires IpRulesSay(a, p, path) && IpRulesSay(b, q, path)
    ensures IpRulesSay(a + b, p + q, path)
  {
  }

  // ---------- Walking a forest ----------

  lemma {:induction false} ClientsAppend(a: seq<Directive>, b: seq<Directive>, stack: seq<string>, path: string)
    ensures ClientsIn(a + b, stack, path) == ClientsIn(a, stack, path) + ClientsIn(b, NamesAfterAll(a, stack), path)
    decreases a
  {
    if a == [] {
      assert a + b == b;
    } else {
      var next := NamesAfter(a[0], stack);
      assert (a + b)[1..] == a[1..] + b;
      ClientsAppend(a[1..], b, next, path);
      Reassociate(ClientOf(a[0], stack, path), ClientsIn(a[1..], next, path),
                  ClientsIn(b, NamesAfterAll(a, stack), path));
    }
  }

  lemma {:induction false} IpRulesAppend(a: seq<Directive>, b: seq<Directive>, stack: seq<string>, path: string)
    ensures IpRulesIn(a + b, stack, path) == IpRulesIn(a, stack, path) + IpRulesIn(b, NamesAfterAll(a, stack), path)
    decreases a
  {
    if a == [] {
      assert a + b == b;
    } else {
      var next := NamesAfter(a[0], stack);
      assert (a + b)[1..] == a[1..] + b;
      IpRulesAppend(a[1..], b, next, path);
      Reassociate(IpRuleOf(a[0], stack, path), IpRulesIn(a[1..], next, path),
                  IpRulesIn(b, NamesAfterAll(a, stack), path));
    }
  }

  function NamesAfterAll(ds: seq<Directive>, stack: seq<string>): seq<string>
    decreases ds
  {
    if ds == [] then stack else NamesAfterAll(ds[1..], NamesAfter(ds[0], stack))
  }

  lemma {:induction false} NamesAppend(a: seq<Directive>, b: seq<Directive>, stack: seq<string>)
    ensures NamesAfterAll(a + b, stack) == NamesAfterAll(b, NamesAfterAll(a, stack))
    decreases a
  {
    if a == [] {
      assert a + b == b;
    } else {
      assert (a + b)[1..] == a[1..] + b;
      NamesAppend(a[1..], b, NamesAfter(a[0], stack));
    }
  }

  lemma BracketKeys()
    ensures "group-begin" != "group-end" && "group-begin" != "client-rules" && "group-end" != "client-rules"
    ensures !IsIpRuleKey("group-begin") && !IsIpRuleKey("group-end")
  {
    assert |"group-begin"| == 11 && |"group-end"| == 9 && |"client-rules"| == 12;
    KeysApart(Directive("group-begin", ""));
    assert "group-begin"[0] == 'g' && "ip-rules"[0] == 'i' && "ignore-ip"[0] == 'i' && "ip-alias"[0] == 'i';
    assert "whitelist-ip"[0] == 'w' && "blacklist-ip"[0] == 'b' && "bogus-nxdomain"[0] == 'b';
  }

  lemma BracketAlone(d: Directive, stack: seq<string>, path: string)
    requires GroupMark(d) != Other
    ensures ClientsIn([d], stack, path) == [] && IpRulesIn([d], stack, path) == []
    ensures NamesAfterAll([d], stack) == NamesAfter(d, stack)
  {
    BracketKeys();
    assert [d][1..] == [];
    assert NamesAfterAll([d][1..], NamesAfter(d, stack)) == NamesAfter(d, stack);
  }

  lemma LeafClients(d: Directive, stack: seq<string>, path: string)
    ensures ClientsSay(ClientsIn([d], stack, path), Kept([Placed(d, Top(stack))], IsClientRule), path)
  {
    var p := [Placed(d, Top(stack))];
    assert [d][1..] == [] && p[1..] == [];
    assert ClientsIn([d], stack, path) == ClientOf(d, stack, path) + [] == ClientOf(d, stack, path);
  }

  lemma LeafIpRules(d: Directive, stack: seq<string>, path: string)
    ensures IpRulesSay(IpRulesIn([d], stack, path), Kept([Placed(d, Top(stack))], IsIpRule), path)
  {
    var p := [Placed(d, Top(stack))];
    assert [d][1..] == [] && p[1..] == [];
    assert IpRulesIn([d], stack, path) == IpRuleOf(d, stack, path) + [] == IpRuleOf(d, stack, path);
  }

  lemma LeafAlone(d: Directive, stack: seq<string>, path: string)
    requires GroupMark(d) == Other
    ensures Finds([d], [Placed(d, Top(stack))], stack, path)
  {
    LeafClients(d, stack, path);
    LeafIpRules(d, stack, path);
    assert NamesAfterAll([d][1..], NamesAfter(d, stack)) == stack;
  }

  /** What walking a forest finds, and that it leaves the stack as it was. */
  ghost predicate Finds(ds: seq<Directive>, ps: seq<Placed>, stack: seq<string>, path: string) {
    && ClientsSay(ClientsIn(ds, stack, path), Kept(ps, IsClientRule), path)
    && IpRulesSay(IpRulesIn(ds, stack, path), Kept(ps, IsIpRule), path)
    && NamesAfterAll(ds, stack) == stack
  }

  lemma FindsBoth(a: seq<Directive>, p: seq<Placed>, b: seq<Directive>, q: seq<Placed>, stack: seq<string>,
                  path: string)
    requires Finds(a, p, stack, path) && Finds(b, q, stack, path)
    ensures Finds(a + b, p + q, stack, path)
  {
    ClientsAppend(a, b, stack, path);
    IpRulesAppend(a, b, stack, path);
    NamesAppend(a, b, stack);
    KeptAppend(p, q, IsClientRule);
    KeptAppend(p, q, IsIpRule);
    ClientsJoin(ClientsIn(a, stack, path), Kept(p, IsClientRule), ClientsIn(b, stack, path), Kept(q, IsClientRule),
                path);
    IpRulesJoin(IpRulesIn(a, stack, path), Kept(p, IsIpRule), IpRulesIn(b, stack, path), Kept(q, IsIpRule), path);
  }

  /** A bracket adds no rule before what follows it. */
  lemma BracketStep(d: Directive, rest: seq<Directive>, stack: seq<string>, path: string)
    requires GroupMark(d) != Other
    ensures ClientsIn([d] + rest, stack, path) == ClientsIn(rest, NamesAfter(d, stack), path)
    ensures IpRulesIn([d] + rest, stack, path) == IpRulesIn(rest, NamesAfter(d, stack), path)
    ensures NamesAfterAll([d] + rest, stack) == NamesAfterAll(rest, NamesAfter(d, stack))
  {
    BracketAlone(d, stack, path);
    ClientsAppend([d], rest, stack, path);
    IpRulesAppend([d], rest, stack, path);
    NamesAppend([d], rest, stack);
  }

  lemma FootStep(body: seq<Directive>, foot: Directive, stack: seq<string>, inner: seq<string>, path: string)
    requires GroupMark(foot) == Close && NamesAfterAll(body, inner) == inner && Pop(inner) == stack
    ensures ClientsIn(body + [foot], inner, path) == ClientsIn(body, inner, path)
    ensures IpRulesIn(body + [foot], inner, path) == IpRulesIn(body, inner, path)
    ensures NamesAfterAll(body + [foot], inner) == stack
  {
    BracketKeys();
    BracketAlone(foot, inner, path);
    ClientsAppend(body, [foot], inner, path);
    IpRulesAppend(body, [foot], inner, path);
    NamesAppend(body, [foot], inner);
  }

  lemma FindsWithin(head: Directive, body: seq<Directive>, ps: seq<Placed>, foot: Directive, stack: seq<string>,
                    path: string)
    requires GroupMark(head) == Open && GroupMark(foot) == Close
    requires Finds(body, ps, stack + [FirstWord(head.value)], path)
    ensures Finds([head] + (body + [foot]), ps, stack, path)
  {
    var inner := stack + [FirstWord(head.value)];
    BracketStep(head, body + [foot], stack, path);
    FootStep(body, foot, stack, inner, path);
  }

  lemma {:induction false} ForestFinds(f: GroupTree, stack: seq<string>, path: string)
    requires Proper(f, GroupMark)
    ensures Finds(Flat(f), PlacedIn(f, Top(stack)), stack, path)
    decreases f
  {
    match f
    case Nil =>
    case Leaf(d, rest) =>
      LeafAlone(d, stack, path);
      ForestFinds(rest, stack, path);
      FindsBoth([d], [Placed(d, Top(stack))], Flat(rest), PlacedIn(rest, Top(stack)), stack, path);
    case Node(head, body, foot, rest) =>
      var inner := stack + [FirstWord(head.value)];
      ForestFinds(body, inner, path);
      ForestFinds(rest, stack, path);
      FindsWithin(head, Flat(body), PlacedIn(body, Top(inner)), foot, stack, path);
      FindsBoth([head] + (Flat(body) + [foot]), PlacedIn(body, Top(inner)), Flat(rest), PlacedIn(rest, Top(stack)),
                stack, path);
      Reassociate([head], Flat(body), [foot]);
      Reassociate([head] + Flat(body), [foot], Flat(rest));
  }

  // ---------- All sources ----------

  /** The assets are those of the files, one after the other. */
  ghost predicate ClientsOfAll(assets: seq<ClientRuleAsset>, sources: seq<ConfigSource>, fs: seq<GroupTree>)
    requires |fs| == |sources|
    decreases sources
  {
    if sources == [] then assets == []
    else
      exists own, more ::
        && assets == own + more && ClientsOfAll(more, sources[1..], fs[1..])
        && ClientsSay(own, Kept(AllPlaced(sources[0], fs[0]), IsClientRule), sources[0].path)
  }

  ghost predicate IpRulesOfAll(assets: seq<IpRuleAsset>, sources: seq<ConfigSource>, fs: seq<GroupTree>)
    requires |fs| == |sources|
    decreases sources
  {
    if sources == [] then assets == []
    else
      exists own, more ::
        && assets == own + more && IpRulesOfAll(more, sources[1..], fs[1..])
        && IpRulesSay(own, Kept(AllPlaced(sources[0], fs[0]), IsIpRule), sources[0].path)
  }

  /** In balanced files every client rule and every ip rule is found once, in document order, with the
      innermost group around it, else the group its file is included for, and with its file. */
  lemma {:induction false} RulesBelong(sources: seq<ConfigSource>, fs: seq<GroupTree>)
    requires AllSpell(sources, fs)
    ensures ClientsOfAll(ClientAssets(sources), sources, fs) && IpRulesOfAll(IpRuleAssets(sources), sources, fs)
  {
    if sources != [] {
      var s := sources[0];
      RestSpell(sources, fs);
      RulesBelong(sources[1..], fs[1..]);
      ForestFinds(fs[0], StartStack(s), s.path);
      assert Top(StartStack(s)) == if s.implicitGroup.Some? then s.implicitGroup.value else "";
    }
  }
}
