/** Managed assets: sets, routing items and rules, parsed from text by a flat parser with at most
    one open group, and rendered into three sections. */
module ManagedAssets {
  import opened Common
  import opened Text
  import opened ConfigLines

  datatype RuleGroup = RuleGroup(name: string, inherit: string, matchers: seq<string>)
  datatype ClientRule = ClientRule(matcher: string, groupName: string)
  datatype IpRule = IpRule(ruleType: string, target: string, options: string, groupName: string)
  datatype RoutingItem = RoutingItem(ruleType: string, target: string, value: string)
  datatype DomainSet = DomainSet(name: string, file: string, setType: string)
  datatype IpSet = IpSet(name: string, file: string)

  datatype Assets = Assets(
    ruleGroups: seq<RuleGroup>, clientRules: seq<ClientRule>, ipRules: seq<IpRule>,
    routingItems: seq<RoutingItem>, domainSets: seq<DomainSet>, ipSets: seq<IpSet>)

  const NOTHING := Assets([], [], [], [], [], [])

  function Plus(a: Assets, b: Assets): Assets {
    Assets(a.ruleGroups + b.ruleGroups, a.clientRules + b.clientRules, a.ipRules + b.ipRules,
           a.routingItems + b.routingItems, a.domainSets + b.domainSets, a.ipSets + b.ipSets)
  }

  lemma PlusIsMonoid(a: Assets, b: Assets, c: Assets)
    ensures Plus(a, NOTHING) == a && Plus(NOTHING, a) == a
    ensures Plus(Plus(a, b), c) == Plus(a, Plus(b, c))
  {
  }

  // ---------- Splitting values ----------

  /** The token after the first occurrence of an option name. */
  function OptionAfter(tokens: seq<string>, name: string): Option<string> {
    if tokens == [] then None
    else if tokens[0] == name then (if |tokens| > 1 then Some(tokens[1]) else None)
    else OptionAfter(tokens[1..], name)
  }

  function NamedOption(value: string, name: string): Option<string> {
    OptionAfter(Words(value), name)
  }

  /** The place at which a word occurs first. */
  predicate FirstAmong(words: seq<string>, word: string, k: nat) {
    k < |words| && words[k] == word && word !in words[..k]
  }

  /** The word behind the first occurrence of an option, or nothing when the option is absent or last. */
  ghost predicate OptionReads(words: seq<string>, option: string, found: Option<string>) {
    if exists k: nat :: k + 1 < |words| && FirstAmong(words, option, k)
    then exists k: nat :: k + 1 < |words| && FirstAmong(words, option, k) && found == Some(words[k + 1])
    else found == None
  }

  lemma {:induction false} OptionAfterReads(words: seq<string>, option: string)
    ensures OptionReads(words, option, OptionAfter(words, option))
  {
    if words != [] && words[0] != option {
      OptionAfterReads(words[1..], option);
      forall k: nat ensures FirstAmong(words, option, k + 1) <==> FirstAmong(words[1..], option, k) {
        assert k < |words[1..]| ==> words[..k + 1] == [words[0]] + words[1..][..k];
      }
      assert forall k: nat :: FirstAmong(words, option, k) ==> k > 0;
      if k: nat :| k + 1 < |words| && FirstAmong(words, option, k) {
        assert FirstAmong(words[1..], option, k - 1);
      }
      if k: nat :| k + 1 < |words[1..]| && FirstAmong(words[1..], option, k) {
        assert FirstAmong(words, option, k + 1);
      }
    } else if words != [] {
      assert FirstAmong(words, option, 0);
      assert forall k: nat :: FirstAmong(words, option, k) ==> k == 0;
    }
  }

  /** The word behind a name in a value is what the option loop finds. */
  lemma NamedOptionReads(value: string, name: string)
    ensures OptionReads(Words(value), name, NamedOption(value, name))
  {
    OptionAfterReads(Words(value), name);
  }

  method FindNamedOption(value: string, name: string) returns (found: Option<string>)
    ensures found == NamedOption(value, name)
    ensures OptionReads(Words(value), name, found)
  {
    NamedOptionReads(value, name);
    var tokens := Words(value);
    var index := 0;
    assert tokens[0..] == tokens;
    while index < |tokens|
      invariant 0 <= index <= |tokens|
      invariant OptionAfter(tokens[index..], name) == NamedOption(value, name)
    {
      assert tokens[index..][1..] == tokens[index + 1..];
      if tokens[index] == name {
        return if index + 1 < |tokens| then Some(tokens[index + 1]) else None;
      }
      index := index + 1;
    }
    return None;
  }

  function FirstWord(value: string): string {
    if Words(value) == [] then "" else Words(value)[0]
  }

  /** Where a slash followed by a space occurs first, or the length of the text. */
  function SlashSpace(s: string): (n: nat)
    ensures n <= |s|
    ensures n < |s| ==> n + 1 < |s| && s[n] == '/' && s[n + 1] == ' '
  {
    if |s| < 2 then |s|
    else if s[0] == '/' && s[1] == ' ' then 0
    else 1 + SlashSpace(s[1..])
  }

  /** Where the last slash occurs, or the length of the text. */
  function LastSlash(s: string): (n: nat)
    ensures n <= |s|
    ensures n < |s| ==> s[n] == '/' && '/' !in s[n + 1..]
    ensures n == |s| ==> '/' !in s
  {
    if s == "" then 0
    else
      var n := LastSlash(s[1..]);
      if n < |s[1..]| then 1 + n else if s[0] == '/' then 0 else |s|
  }

  function SplitTargetOptions(value: string): (string, string) {
    var trimmed := Trim(value);
    if StartsWith(trimmed, '/') && SlashSpace(trimmed[1..]) < |trimmed| - 1 then
      var rest := trimmed[1..];
      ("/" + rest[..SlashSpace(rest)], Trim(rest[SlashSpace(rest) + 2..]))
    else (KeyOf(trimmed), ValueOf(trimmed))
  }

  function SplitTargetValue(value: string): (string, string) {
    var trimmed := Trim(value);
    if StartsWith(trimmed, '/') && LastSlash(trimmed[1..]) < |trimmed| - 1 then
      var rest := trimmed[1..];
      ("/" + rest[..LastSlash(rest)], Trim(rest[LastSlash(rest) + 1..]))
    else SplitTargetOptions(value)
  }

  // ---------- Parsing ----------

  predicate IsIpRuleKey(key: string) {
    key == "ip-rules" || key == "whitelist-ip" || key == "blacklist-ip" || key == "ignore-ip" ||
    key == "bogus-nxdomain" || key == "ip-alias"
  }

  predicate IsRoutingKey(key: string) {
    key == "nameserver" || key == "domain-rules" || key == "address" || key == "cname"
  }

  predicate IsGroupKey(key: string) {
    key == "group-begin" || key == "group-match" || key == "group-end"
  }

  function GroupName(group: Option<RuleGroup>): string {
    if group.Some? then group.value.name else ""
  }

  function OpenGroup(value: string): RuleGroup {
    RuleGroup(FirstWord(value), NamedOption(value, "-inherit").GetOr(""), [])
  }

  /** The group that is open after a directive. */
  function GroupAfter(d: Directive, group: Option<RuleGroup>): Option<RuleGroup> {
    if d.key == "group-begin" then Some(OpenGroup(d.value))
    else if d.key == "group-match" && group.Some? then
      Some(group.value.(matchers := group.value.matchers + [d.value]))
    else if d.key == "group-end" then None
    else group
  }

  function Closed(group: Option<RuleGroup>): Assets {
    NOTHING.(ruleGroups := if group.Some? then [group.value] else [])
  }

  /** What a directive adds. */
  function AddedBy(d: Directive, group: Option<RuleGroup>): Assets {
    if d.key == "group-end" then Closed(group) else AddedAs(d, GroupName(group))
  }

  function AddedAs(d: Directive, groupName: string): Assets {
    if d.key == "client-rules" then NOTHING.(clientRules := [ClientRule(d.value, groupName)])
    else if IsIpRuleKey(d.key) then
      var (target, options) := SplitTargetOptions(d.value);
      NOTHING.(ipRules := [IpRule(d.key, target, options, groupName)])
    else if IsRoutingKey(d.key) then
      var (target, value) := SplitTargetValue(d.value);
      NOTHING.(routingItems := [RoutingItem(d.key, target, value)])
    else if d.key == "domain-set" then
      var name := NamedOption(d.value, "-name").GetOr("");
      NOTHING.(domainSets := if name == "" then [] else
        [DomainSet(name, NamedOption(d.value, "-file").GetOr(""), NamedOption(d.value, "-type").GetOr("list"))])
    else if d.key == "ip-set" then
      var name := NamedOption(d.value, "-name").GetOr("");
      NOTHING.(ipSets := if name == "" then [] else [IpSet(name, NamedOption(d.value, "-file").GetOr(""))])
    else NOTHING
  }

  function ParseFrom(ds: seq<Directive>, group: Option<RuleGroup>): Assets
    decreases ds
  {
    if ds == [] then Closed(group)
    else Plus(AddedBy(ds[0], group), ParseFrom(ds[1..], GroupAfter(ds[0], group)))
  }

  function ParseAssets(text: string): Assets {
    ParseFrom(Directives(text), None)
  }

  /** The line loop with its six lists and the open group. */
  method ParseManagedAssets(text: string) returns (assets: Assets)
    ensures assets == ParseAssets(text)
  {
    assets := NOTHING;
    var inGroup: Option<RuleGroup> := None;
    var lines := CollectLogicalLines(text);
    assert lines[0..] == lines;
    PlusIsMonoid(ParseAssets(text), NOTHING, NOTHING);
    for i := 0 to |lines|
      invariant Plus(assets, ParseFrom(DirectivesFrom(lines[i..]), inGroup)) == ParseAssets(text)
    {
      assert lines[i..][0] == lines[i] && lines[i..][1..] == lines[i + 1..];
      ghost var rest := DirectivesFrom(lines[i + 1..]);
      var trimmed := Trim(lines[i]);
      if trimmed == "" || IsComment(trimmed) {
        assert [] + rest == rest;
        continue;
      }
      var d := Directive(KeyOf(trimmed), ValueOf(trimmed));
      assert ([d] + rest)[1..] == rest;
      PlusIsMonoid(assets, AddedBy(d, inGroup), ParseFrom(rest, GroupAfter(d, inGroup)));
      var next := PushDirective(assets, d, inGroup);
      inGroup := GroupAfter(d, inGroup);
      assets := next;
    }
    if inGroup.Some? {
      assets := assets.(ruleGroups := assets.ruleGroups + [inGroup.value]);
    }
  }

  /** One directive pushes onto the list it belongs to. */
  method PushDirective(given: Assets, d: Directive, inGroup: Option<RuleGroup>) returns (assets: Assets)
    ensures assets == Plus(given, AddedBy(d, inGroup))
  {
    assets := given;
    PlusIsMonoid(given, NOTHING, NOTHING);
    if d.key == "group-end" {
      if inGroup.Some? {
        assets := assets.(ruleGroups := assets.ruleGroups + [inGroup.value]);
      }
    } else if d.key == "client-rules" {
      assets := assets.(clientRules := assets.clientRules + [ClientRule(d.value, GroupName(inGroup))]);
    } else if IsIpRuleKey(d.key) {
      var (target, options) := SplitTargetOptions(d.value);
      assets := assets.(ipRules := assets.ipRules + [IpRule(d.key, target, options, GroupName(inGroup))]);
    } else if IsRoutingKey(d.key) {
      var (target, value) := SplitTargetValue(d.value);
      assets := assets.(routingItems := assets.routingItems + [RoutingItem(d.key, target, value)]);
    } else if d.key == "domain-set" {
      var name := FindNamedOption(d.value, "-name");
      var file := FindNamedOption(d.value, "-file");
      var setType := FindNamedOption(d.value, "-type");
      if name.GetOr("") != "" {
        var found := DomainSet(name.value, file.GetOr(""), setType.GetOr("list"));
        assets := assets.(domainSets := assets.domainSets + [found]);
      }
    } else if d.key == "ip-set" {
      var name := FindNamedOption(d.value, "-name");
      var file := FindNamedOption(d.value, "-file");
      if name.GetOr("") != "" {
        assets := assets.(ipSets := assets.ipSets + [IpSet(name.value, file.GetOr(""))]);
      }
    }
  }

  // ---------- What a group reads as ----------

  function MatchValues(ds: seq<Directive>): seq<string> {
    if ds == [] then [] else (if ds[0].key == "group-match" then [ds[0].value] else []) + MatchValues(ds[1..])
  }

  predicate NoBrackets(ds: seq<Directive>) {
    forall d :: d in ds ==> d.key != "group-begin" && d.key != "group-end"
  }

  lemma OtherAddsNoGroup(d: Directive, group: Option<RuleGroup>)
    requires d.key != "group-end"
    ensures AddedBy(d, group).ruleGroups == []
  {
  }

  /** Lines between brackets add their matchers to the open group, in order, behind those it has. */
  lemma {:induction false} BodyFills(body: seq<Directive>, rest: seq<Directive>, g: RuleGroup)
    requires NoBrackets(body)
    ensures ParseFrom(body + rest, Some(g)).ruleGroups ==
            ParseFrom(rest, Some(g.(matchers := g.matchers + MatchValues(body)))).ruleGroups
    decreases body
  {
    if body == [] {
      assert body + rest == rest && g.matchers + [] == g.matchers;
    } else {
      var d, own := body[0], if body[0].key == "group-match" then [body[0].value] else [];
      assert d in body && (body + rest)[1..] == body[1..] + rest;
      var next := g.(matchers := g.matchers + own);
      assert g.matchers + [] == g.matchers;
      assert GroupAfter(d, Some(g)) == Some(next);
      OtherAddsNoGroup(d, Some(g));
      BodyFills(body[1..], rest, next);
      Reassociate(g.matchers, own, MatchValues(body[1..]));
    }
  }

  /** A group reads as its first word, the word behind the option, and the values of its match lines
      in order, whether an end line closes it or the text ends; what was open before it is gone. */
  lemma GroupReads(head: Directive, body: seq<Directive>, foot: Directive, rest: seq<Directive>,
                   open: Option<RuleGroup>)
    returns (g: RuleGroup)
    requires head.key == "group-begin" && NoBrackets(body) && foot.key == "group-end"
    ensures g.name == (if Words(head.value) == [] then "" else Words(head.value)[0]) && g.matchers == MatchValues(body)
    ensures OptionReads(Words(head.value), "-inherit", if g.inherit == "" then None else Some(g.inherit))
    ensures ParseFrom([head] + (body + ([foot] + rest)), open).ruleGroups == [g] + ParseFrom(rest, None).ruleGroups
    ensures ParseFrom([head] + body, open).ruleGroups == [g]
  {
    var blank := OpenGroup(head.value);
    g := blank.(matchers := MatchValues(body));
    assert [] + MatchValues(body) == MatchValues(body);
    NamedOptionReads(head.value, "-inherit");
    OptionIsWord(head.value, "-inherit");
    OtherAddsNoGroup(head, open);
    assert ([head] + (body + ([foot] + rest)))[1..] == body + ([foot] + rest) && ([head] + body)[1..] == body;
    BodyFills(body, [foot] + rest, blank);
    assert ([foot] + rest)[1..] == rest;
    BodyFills(body, [], blank);
    assert body + [] == body;
  }

  lemma OptionIsWord(value: string, name: string)
    ensures NamedOption(value, name).Some? ==> NamedOption(value, name).value != ""
  {
    var words := Words(value);
    NamedOptionReads(value, name);
    WordsAreWords(value);
    if NamedOption(value, name).Some? {
      var k: nat :| k + 1 < |words| && FirstAmong(words, name, k) && NamedOption(value, name) == Some(words[k + 1]);
      assert words[k + 1] in words;
    }
  }

  // ---------- What a set reads as ----------

  /** A text that an option gives, with a default for its absence. */
  ghost predicate OptionGives(words: seq<string>, option: string, text: string, default: string) {
    OptionReads(words, option, Some(text)) || (OptionReads(words, option, None) && text == default)
  }

  lemma OptionIsGiven(value: string, option: string, default: string)
    ensures OptionGives(Words(value), option, NamedOption(value, option).GetOr(default), default)
  {
    NamedOptionReads(value, option);
  }

  /** A set line without a name adds nothing; one with a name adds a set of that name, with the file
      behind its option or none, and a domain set with the type behind its option or a list. */
  lemma SetsRead(d: Directive, group: Option<RuleGroup>)
    ensures var words, added := Words(d.value), AddedBy(d, group);
            && (d.key == "domain-set" ==>
                  if OptionReads(words, "-name", None) then added.domainSets == []
                  else |added.domainSets| == 1 && DomainSetSays(added.domainSets[0], words))
            && (d.key == "ip-set" ==>
                  if OptionReads(words, "-name", None) then added.ipSets == []
                  else |added.ipSets| == 1 && IpSetSays(added.ipSets[0], words))
  {
    NamedOptionReads(d.value, "-name");
    OptionIsWord(d.value, "-name");
    OptionIsGiven(d.value, "-file", "");
    OptionIsGiven(d.value, "-type", "list");
    SetKeys(d);
  }

  ghost predicate DomainSetSays(s: DomainSet, words: seq<string>) {
    OptionReads(words, "-name", Some(s.name)) && OptionGives(words, "-file", s.file, "") &&
    OptionGives(words, "-type", s.setType, "list")
  }

  ghost predicate IpSetSays(s: IpSet, words: seq<string>) {
    OptionReads(words, "-name", Some(s.name)) && OptionGives(words, "-file", s.file, "")
  }

  lemma SetKeys(d: Directive)
    ensures d.key == "domain-set" || d.key == "ip-set" ==>
              d.key != "group-end" && d.key != "client-rules" && !IsIpRuleKey(d.key) && !IsRoutingKey(d.key)
    ensures d.key == "ip-set" ==> d.key != "domain-set"
  {
    assert |"domain-set"| == 10 && |"ip-set"| == 6 && |"group-end"| == 9 && |"client-rules"| == 12;
    assert "domain-set"[0] == 'd' && "nameserver"[0] == 'n' && "ignore-ip"[0] == 'i' && "domain-set"[7] == 's';
  }
}
