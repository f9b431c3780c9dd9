/** The client and ip rules of the included files, with their groups kept on a stack, and how they
    agree with the flat parser of managed assets. */
module RuleWalkers {
  import opened Common
  import opened Text
  import opened ConfigLines
  import opened ManagedAssets
  import opened IncludeWalk

  datatype ClientRuleAsset = ClientRuleAsset(matcher: string, groupName: string, source: string)
  datatype IpRuleAsset = IpRuleAsset(ruleType: string, target: string, options: string, groupName: string,
                                     source: string)

  function Top(stack: seq<string>): string {
    if stack == [] then "" else stack[|stack| - 1]
  }

  function Pop<T>(stack: seq<T>): seq<T> {
    if stack == [] then [] else stack[..|stack| - 1]
  }

  function NamesAfter(d: Directive, stack: seq<string>): seq<string> {
    if d.key == "group-begin" then stack + [FirstWord(d.value)]
    else if d.key == "group-end" then Pop(stack)
    else stack
  }

  function ClientOf(d: Directive, stack: seq<string>, path: string): seq<ClientRuleAsset> {
    if d.key == "client-rules" then [ClientRuleAsset(d.value, Top(stack), path)] else []
  }

  function IpRuleOf(d: Directive, stack: seq<string>, path: string): seq<IpRuleAsset> {
    if IsIpRuleKey(d.key) then
      var (target, options) := SplitTargetOptions(d.value);
      [IpRuleAsset(d.key, target, options, Top(stack), path)]
    else []
  }

  function ClientsIn(ds: seq<Directive>, stack: seq<string>, path: string): seq<ClientRuleAsset>
    decreases ds
  {
    if ds == [] then [] else ClientOf(ds[0], stack, path) + ClientsIn(ds[1..], NamesAfter(ds[0], stack), path)
  }

  function IpRulesIn(ds: seq<Directive>, stack: seq<string>, path: string): seq<IpRuleAsset>
    decreases ds
  {
    if ds == [] then [] else IpRuleOf(ds[0], stack, path) + IpRulesIn(ds[1..], NamesAfter(ds[0], stack), path)
  }

  function StartStack(s: ConfigSource): seq<string> {
    if s.implicitGroup.Some? then [s.implicitGroup.value] else []
  }

  function ClientAssets(sources: seq<ConfigSource>): seq<ClientRuleAsset> {
    if sources == [] then []
    else ClientsIn(Directives(sources[0].text), StartStack(sources[0]), sources[0].path) + ClientAssets(sources[1..])
  }

  function IpRuleAssets(sources: seq<ConfigSource>): seq<IpRuleAsset> {
    if sources == [] then []
    else IpRulesIn(Directives(sources[0].text), StartStack(sources[0]), sources[0].path) + IpRuleAssets(sources[1..])
  }

  // ---------- The walkers ----------

  lemma DirectivesAt(lines: seq<string>, i: nat)
    requires i < |lines|
    ensures DirectivesFrom(lines[i..]) ==
            (if Silent(lines[i]) then [] else [DirectiveOf(Trim(lines[i]))]) + DirectivesFrom(lines[i + 1..])
  {
    assert lines[i..][0] == lines[i] && lines[i..][1..] == lines[i + 1..];
  }

  method ClientRulesOf(source: ConfigSource) returns (assets: seq<ClientRuleAsset>)
    ensures assets == ClientsIn(Directives(source.text), StartStack(source), source.path)
  {
    assets := [];
    var groupStack := StartStack(source);
    var lines := CollectLogicalLines(source.text);
    assert lines[0..] == lines;
    for i := 0 to |lines|
      invariant assets + ClientsIn(DirectivesFrom(lines[i..]), groupStack, source.path) ==
                ClientsIn(Directives(source.text), StartStack(source), source.path)
    {
      DirectivesAt(lines, i);
      ghost var rest := DirectivesFrom(lines[i + 1..]);
      var trimmed := Trim(lines[i]);
      if trimmed == "" || IsComment(trimmed) {
        assert [] + rest == rest;
        continue;
      }
      var d := Directive(KeyOf(trimmed), ValueOf(trimmed));
      assert ([d] + rest)[1..] == rest;
      Reassociate(assets, ClientOf(d, groupStack, source.path),
                  ClientsIn(rest, NamesAfter(d, groupStack), source.path));
      if d.key == "group-begin" {
        assert assets + [] == assets;
        groupStack := groupStack + [FirstWord(d.value)];
      } else if d.key == "group-end" {
        assert assets + [] == assets;
        groupStack := Pop(groupStack);
      } else if d.key == "client-rules" {
        assets := assets + [ClientRuleAsset(d.value, Top(groupStack), source.path)];
      } else {
        assert assets + [] == assets;
      }
    }
    assert assets + [] == assets;
  }

  method BuildClientRuleAssets(sources: seq<ConfigSource>) returns (assets: seq<ClientRuleAsset>)
    ensures assets == ClientAssets(sources)
  {
    assets := [];
    assert sources[0..] == sources;
    for i := 0 to |sources|
      invariant assets + ClientAssets(sources[i..]) == ClientAssets(sources)
    {
      assert sources[i..][1..] == sources[i + 1..];
      var more := ClientRulesOf(sources[i]);
      Reassociate(assets, more, ClientAssets(sources[i + 1..]));
      assets := assets + more;
    }
    assert assets + [] == assets;
  }

  method IpRulesOf(source: ConfigSource) returns (assets: seq<IpRuleAsset>)
    ensures assets == IpRulesIn(Directives(source.text), StartStack(source), source.path)
  {
    assets := [];
    var groupStack := StartStack(source);
    var lines := CollectLogicalLines(source.text);
    assert lines[0..] == lines;
    for i := 0 to |lines|
      invariant assets + IpRulesIn(DirectivesFrom(lines[i..]), groupStack, source.path) ==
                IpRulesIn(Directives(source.text), StartStack(source), source.path)
    {
      DirectivesAt(lines, i);
      ghost var rest := DirectivesFrom(lines[i + 1..]);
      var trimmed := Trim(lines[i]);
      if trimmed == "" || IsComment(trimmed) {
        assert [] + rest == rest;
        continue;
      }
      var d := Directive(KeyOf(trimmed), ValueOf(trimmed));
      assert ([d] + rest)[1..] == rest;
      Reassociate(assets, IpRuleOf(d, groupStack, source.path),
                  IpRulesIn(rest, NamesAfter(d, groupStack), source.path));
      if d.key == "group-begin" {
        assert assets + [] == assets;
        groupStack := groupStack + [FirstWord(d.value)];
      } else if d.key == "group-end" {
        assert assets + [] == assets;
        groupStack := Pop(groupStack);
      } else if IsIpRuleKey(d.key) {
        var (target, options) := SplitTargetOptions(d.value);
        assets := assets + [IpRuleAsset(d.key, target, options, Top(groupStack), source.path)];
      } else {
        assert assets + [] == assets;
      }
    }
    assert assets + [] == assets;
  }

  method BuildIpRuleAssets(sources: seq<ConfigSource>) returns (assets: seq<IpRuleAsset>)
    ensures assets == IpRuleAssets(sources)
  {
    assets := [];
    assert sources[0..] == sources;
    for i := 0 to |sources|
      invariant assets + IpRuleAssets(sources[i..]) == IpRuleAssets(sources)
    {
      assert sources[i..][1..] == sources[i + 1..];
      var more := IpRulesOf(sources[i]);
      Reassociate(assets, more, IpRuleAssets(sources[i + 1..]));
      assets := assets + more;
    }
    assert assets + [] == assets;
  }

  // ---------- Agreement with the flat parser ----------

  /** A group never begins while another is open. */
  predicate NeverNests(ds: seq<Directive>, inside: bool)
    decreases ds
  {
    ds == [] ||
    if ds[0].key == "group-begin" then !inside && NeverNests(ds[1..], true)
    else if ds[0].key == "group-end" then NeverNests(ds[1..], false)
    else NeverNests(ds[1..], inside)
  }

  function WithoutSource(assets: seq<ClientRuleAsset>): seq<ClientRule> {
    if assets == [] then [] else [ClientRule(assets[0].matcher, assets[0].groupName)] + WithoutSource(assets[1..])
  }

  function IpWithoutSource(assets: seq<IpRuleAsset>): seq<IpRule> {
    if assets == [] then []
    else
      [IpRule(assets[0].ruleType, assets[0].target, assets[0].options, assets[0].groupName)] +
      IpWithoutSource(assets[1..])
  }

  lemma KeysApart(d: Directive)
    ensures d.key == "client-rules" ==> !IsIpRuleKey(d.key) && d.key != "group-end"
    ensures IsIpRuleKey(d.key) ==> d.key != "client-rules" && d.key != "group-end"
  {
    assert "client-rules"[1] != "ip-rules"[1] && "client-rules"[0] != "group-end"[0];
    assert "group-end"[0] != "ip-rules"[0] && "group-end"[0] != "whitelist-ip"[0] &&
           "group-end"[0] != "blacklist-ip"[0];
    assert "group-end"[0] != "ignore-ip"[0] && "group-end"[0] != "bogus-nxdomain"[0] && "group-end"[0] != "ip-alias"[0];
    assert "client-rules"[0] != "whitelist-ip"[0] && "client-rules"[0] != "blacklist-ip"[0];
    assert "client-rules"[0] != "ignore-ip"[0] && "client-rules"[0] != "bogus-nxdomain"[0] &&
           "client-rules"[0] != "ip-alias"[0];
  }

  lemma {:induction false} WithoutSourceAppend(a: seq<ClientRuleAsset>, b: seq<ClientRuleAsset>)
    ensures WithoutSource(a + b) == WithoutSource(a) + WithoutSource(b)
  {
    if a == [] {
      assert a + b == b;
    } else {
      assert (a + b)[1..] == a[1..] + b;
      WithoutSourceAppend(a[1..], b);
    }
  }

  lemma {:induction false} IpWithoutSourceAppend(a: seq<IpRuleAsset>, b: seq<IpRuleAsset>)
    ensures IpWithoutSource(a + b) == IpWithoutSource(a) + IpWithoutSource(b)
  {
    if a == [] {
      assert a + b == b;
    } else {
      assert (a + b)[1..] == a[1..] + b;
      IpWithoutSourceAppend(a[1..], b);
    }
  }

  // ---------- Exactly when they agree ----------

  predicate IsRule(d: Directive, clients: bool) {
    if clients then d.key == "client-rules" else IsIpRuleKey(d.key)
  }

  function BegunAfter(d: Directive, begun: bool): bool {
    d.key == "group-begin" || (d.key != "group-end" && begun)
  }

  /** Every rule line either follows the begin line of its group with no end line between, or stands
      where no named group is open. */
  predicate NoRuleBehindEnd(ds: seq<Directive>, stack: seq<string>, begun: bool, clients: bool)
    decreases ds
  {
    ds == [] ||
    ((IsRule(ds[0], clients) ==> begun || Top(stack) == "") &&
     NoRuleBehindEnd(ds[1..], NamesAfter(ds[0], stack), BegunAfter(ds[0], begun), clients))
  }

  /** While a begin line was the last bracket, the flat parser has its group open, too. */
  predicate Aligned(stack: seq<string>, group: Option<RuleGroup>) {
    group.Some? ==> stack != [] && Top(stack) == group.value.name
  }

  lemma AlignedStep(d: Directive, stack: seq<string>, group: Option<RuleGroup>)
    requires Aligned(stack, group)
    ensures Aligned(NamesAfter(d, stack), GroupAfter(d, group))
    ensures GroupAfter(d, group).Some? == BegunAfter(d, group.Some?)
  {
    assert |"group-begin"| == 11 && |"group-end"| == 9;
    assert "group-match"[6] != "group-begin"[6] && "group-match"[6] != "group-end"[6];
  }

  lemma HeadsDiffer<T>(a: seq<T>, b: seq<T>, x: seq<T>, y: seq<T>)
    requires |a| == |b|
    ensures a + x == b + y <==> a == b && x == y
  {
    if a + x == b + y {
      assert (a + x)[..|a|] == a && (b + y)[..|b|] == b && (a + x)[|a|..] == x && (b + y)[|b|..] == y;
    }
  }

  lemma ClientHead(d: Directive, stack: seq<string>, group: Option<RuleGroup>, path: string)
    requires Aligned(stack, group)
    ensures var found, parsed := WithoutSource(ClientOf(d, stack, path)), AddedBy(d, group).clientRules;
            && |found| == |parsed|
            && (found == parsed <==> (IsRule(d, true) ==> group.Some? || Top(stack) == ""))
  {
    KeysApart(d);
    if d.key == "client-rules" {
      var one := [ClientRuleAsset(d.value, Top(stack), path)];
      assert one[1..] == [] && WithoutSource(one) == [ClientRule(d.value, Top(stack))];
      assert [ClientRule(d.value, Top(stack))][0].groupName == Top(stack);
      assert [ClientRule(d.value, GroupName(group))][0].groupName == GroupName(group);
    }
  }

  lemma IpRuleHead(d: Directive, stack: seq<string>, group: Option<RuleGroup>, path: string)
    requires Aligned(stack, group)
    ensures var found, parsed := IpWithoutSource(IpRuleOf(d, stack, path)), AddedBy(d, group).ipRules;
            && |found| == |parsed|
            && (found == parsed <==> (IsRule(d, false) ==> group.Some? || Top(stack) == ""))
  {
    KeysApart(d);
    if IsIpRuleKey(d.key) {
      var one, parsed := IpRuleOf(d, stack, path), AddedBy(d, group).ipRules;
      assert |one| == 1 && one[1..] == [] && |parsed| == 1;
      assert IpWithoutSource(one)[0].groupName == Top(stack) && parsed[0].groupName == GroupName(group);
    }
  }

  lemma {:induction false} ClientsAgreeIff(ds: seq<Directive>, stack: seq<string>, group: Option<RuleGroup>,
                                           path: string)
    requires Aligned(stack, group)
    ensures |WithoutSource(ClientsIn(ds, stack, path))| == |ParseFrom(ds, group).clientRules|
    ensures WithoutSource(ClientsIn(ds, stack, path)) == ParseFrom(ds, group).clientRules <==>
            NoRuleBehindEnd(ds, stack, group.Some?, true)
    decreases ds
  {
    if ds != [] {
      var d, next, after := ds[0], NamesAfter(ds[0], stack), GroupAfter(ds[0], group);
      AlignedStep(d, stack, group);
      ClientHead(d, stack, group, path);
      ClientsAgreeIff(ds[1..], next, after, path);
      WithoutSourceAppend(ClientOf(d, stack, path), ClientsIn(ds[1..], next, path));
      HeadsDiffer(WithoutSource(ClientOf(d, stack, path)), AddedBy(d, group).clientRules,
                  WithoutSource(ClientsIn(ds[1..], next, path)), ParseFrom(ds[1..], after).clientRules);
    }
  }

  lemma {:induction false} IpRulesAgreeIff(ds: seq<Directive>, stack: seq<string>, group: Option<RuleGroup>,
                                           path: string)
    requires Aligned(stack, group)
    ensures |IpWithoutSource(IpRulesIn(ds, stack, path))| == |ParseFrom(ds, group).ipRules|
    ensures IpWithoutSource(IpRulesIn(ds, stack, path)) == ParseFrom(ds, group).ipRules <==>
            NoRuleBehindEnd(ds, stack, group.Some?, false)
    decreases ds
  {
    if ds != [] {
      var d, next, after := ds[0], NamesAfter(ds[0], stack), GroupAfter(ds[0], group);
      AlignedStep(d, stack, group);
      IpRuleHead(d, stack, group, path);
      IpRulesAgreeIff(ds[1..], next, after, path);
      IpWithoutSourceAppend(IpRuleOf(d, stack, path), IpRulesIn(ds[1..], next, path));
      HeadsDiffer(IpWithoutSource(IpRuleOf(d, stack, path)), AddedBy(d, group).ipRules,
                  IpWithoutSource(IpRulesIn(ds[1..], next, path)), ParseFrom(ds[1..], after).ipRules);
    }
  }

  /** On any text, nested groups included, walkers and parser agree if and only if no rule line stands
      behind the end line of a group nested in a named one. */
  lemma WalkersAgreeIff(path: string, text: string)
    ensures WithoutSource(ClientAssets([ConfigSource(path, text, None)])) == ParseAssets(text).clientRules <==>
            NoRuleBehindEnd(Directives(text), [], false, true)
    ensures IpWithoutSource(IpRuleAssets([ConfigSource(path, text, None)])) == ParseAssets(text).ipRules <==>
            NoRuleBehindEnd(Directives(text), [], false, false)
  {
    var sources := [ConfigSource(path, text, None)];
    assert sources[1..] == [];
    ClientsAgreeIff(Directives(text), [], None, path);
    IpRulesAgreeIff(Directives(text), [], None, path);
    assert ClientAssets(sources) == ClientsIn(Directives(text), [], path) + [] == ClientsIn(Directives(text), [], path);
    assert IpRuleAssets(sources) == IpRulesIn(Directives(text), [], path) + [] == IpRulesIn(Directives(text), [], path);
  }

  lemma {:induction false} NeverNestingIsClear(ds: seq<Directive>, stack: seq<string>, begun: bool, clients: bool)
    requires NeverNests(ds, begun) && |stack| <= 1 && (begun <==> stack != [])
    ensures NoRuleBehindEnd(ds, stack, begun, clients)
    decreases ds
  {
    if ds != [] {
      assert |"group-begin"| == 11 && |"group-end"| == 9;
      NeverNestingIsClear(ds[1..], NamesAfter(ds[0], stack), BegunAfter(ds[0], begun), clients);
    }
  }

  /** In particular on any text whose groups never nest: the same client rules and the same ip rules,
      each in the same group. */
  lemma WalkersAgreeWithParser(path: string, text: string)
    requires NeverNests(Directives(text), false)
    ensures WithoutSource(ClientAssets([ConfigSource(path, text, None)])) == ParseAssets(text).clientRules
    ensures IpWithoutSource(IpRuleAssets([ConfigSource(path, text, None)])) == ParseAssets(text).ipRules
  {
    NeverNestingIsClear(Directives(text), [], false, true);
    NeverNestingIsClear(Directives(text), [], false, false);
    WalkersAgreeIff(path, text);
  }

  lemma BracketStep(d: Directive, rest: seq<Directive>, stack: seq<string>, group: Option<RuleGroup>, path: string)
    requires d.key == "group-begin" || d.key == "group-end"
    ensures ClientsIn([d] + rest, stack, path) == ClientsIn(rest, NamesAfter(d, stack), path)
    ensures ParseFrom([d] + rest, group).clientRules == ParseFrom(rest, GroupAfter(d, group)).clientRules
  {
    assert ([d] + rest)[1..] == rest;
    assert |"group-begin"| == 11 && |"group-end"| == 9 && |"client-rules"| == 12;
    KeysApart(d);
    assert "group-begin"[0] != "ip-rules"[0] && "group-begin"[0] != "whitelist-ip"[0] &&
           "group-begin"[0] != "blacklist-ip"[0];
    assert "group-begin"[0] != "ignore-ip"[0] && "group-begin"[0] != "bogus-nxdomain"[0] &&
           "group-begin"[0] != "ip-alias"[0];
  }

  lemma RuleAlone(matcher: string, stack: seq<string>, path: string)
    ensures ClientsIn([Directive("client-rules", matcher)], stack, path) == [ClientRuleAsset(matcher, Top(stack), path)]
    ensures ParseFrom([Directive("client-rules", matcher)], None).clientRules == [ClientRule(matcher, "")]
  {
    var d := Directive("client-rules", matcher);
    var ds := [d];
    assert ds[1..] == [] && |"client-rules"| == 12 && |"group-end"| == 9 && |"group-begin"| == 11;
    assert ClientsIn(ds[1..], NamesAfter(d, stack), path) == [];
    assert Closed(GroupAfter(d, None)).clientRules == [];
  }

  /** After a nested group ends, the stack returns to the outer group and the flat parser to none. */
  lemma NestedGroupsDisagree(begin: string, nested: string, matcher: string, path: string)
    ensures var ds := [Directive("group-begin", begin)] + ([Directive("group-begin", nested)] +
                      ([Directive("group-end", "")] + [Directive("client-rules", matcher)]));
            && ClientsIn(ds, [], path) == [ClientRuleAsset(matcher, FirstWord(begin), path)]
            && ParseFrom(ds, None).clientRules == [ClientRule(matcher, "")]
  {
    var outer, inner := Directive("group-begin", begin), Directive("group-begin", nested);
    var end := Directive("group-end", "");
    var rule := [Directive("client-rules", matcher)];
    var names := [FirstWord(begin)] + [FirstWord(nested)];
    var open := Some(OpenGroup(nested));
    BracketStep(outer, [inner] + ([end] + rule), [], None, path);
    BracketStep(inner, [end] + rule, [FirstWord(begin)], Some(OpenGroup(begin)), path);
    BracketStep(end, rule, names, open, path);
    assert |"group-begin"| == 11 && |"group-end"| == 9;
    assert [] + [FirstWord(begin)] == [FirstWord(begin)] && names[..1] == [FirstWord(begin)];
    RuleAlone(matcher, [FirstWord(begin)], path);
  }
}
