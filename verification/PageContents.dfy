/** What a page may hold, whatever was entered: the lines a renderer writes are broken only where it
    breaks them, and every directive read back from a page has one of the keys the page is for. */
module PageContents {
  import opened Common
  import opened Text
  import opened ConfigLines
  import opened ManagedAssets
  import opened AssetsRoundTrip

  // ---------- Texts led by a key ----------

  type Keys = string -> bool

  /** A word that a continuation cannot run into. */
  predicate LeadingKey(k: string) {
    IsWord(k) && !EndsWith(k, '\\') && k[0] != '#'
  }

  ghost predicate Leading(keys: Keys) {
    forall k :: keys(k) ==> LeadingKey(k)
  }

  predicate Led(s: string, keys: Keys) {
    keys(KeyOf(s))
  }

  lemma LedBy(k: string, s: string)
    requires IsWord(k) && k <= s && (|s| > |k| ==> IsSpace(s[|k|]))
    ensures KeyOf(s) == k
  {
    assert s == k + s[|k|..];
    WordLengthOf(k, s[|k|..]);
  }

  /** A beginning that holds the key is led by it, too. */
  lemma LedPrefix(s: string, t: string, keys: Keys)
    requires Leading(keys) && Led(s, keys) && t <= s && |KeyOf(s)| <= |t|
    ensures Led(t, keys)
  {
    var k := KeyOf(s);
    WordLengthIs(s);
    assert t[..|k|] == k;
    LedBy(k, t);
  }

  lemma LedMore(s: string, more: string, keys: Keys)
    requires Leading(keys) && Led(s, keys)
    ensures Led(s + " " + more, keys)
  {
    var k := KeyOf(s);
    WordLengthIs(s);
    var t := s + " " + more;
    assert t[..|k|] == k && (|s| == |k| ==> t[|k|] == ' ');
    LedBy(k, t);
  }

  lemma LedIsTight(s: string, keys: Keys)
    requires Leading(keys) && Led(s, keys)
    ensures s != "" && !IsSpace(s[0]) && TrimStart(s) == s && !StartsWith(s, '#')
  {
    assert s[0] == KeyOf(s)[0] && KeyOf(s)[0] in KeyOf(s);
  }

  lemma LedTrimmed(s: string, keys: Keys)
    requires Leading(keys) && Led(s, keys)
    ensures Led(Trim(s), keys)
  {
    var k := KeyOf(s);
    LedIsTight(s, keys);
    assert s[|k| - 1] == k[|k| - 1] && k[|k| - 1] in k;
    KeepsWord(s, |k|);
    TrimEndLast(s);
    LedPrefix(s, TrimEnd(s), keys);
  }

  lemma {:induction false} KeepsWord(s: string, n: nat)
    requires 0 < n <= |s| && !IsSpace(s[n - 1])
    ensures n <= |TrimEnd(s)| <= |s|
    decreases |s|
  {
    if IsSpace(s[|s| - 1]) {
      KeepsWord(s[..|s| - 1], n);
    }
  }

  lemma {:induction false} BackslashesKeep(s: string, n: nat)
    requires 0 < n <= |s| && s[n - 1] != '\\'
    ensures n <= |TrimBackslashes(s)| <= |s| && TrimBackslashes(s) <= s
    decreases |s|
  {
    if EndsWith(s, '\\') {
      BackslashesKeep(s[..|s| - 1], n);
    }
  }

  lemma LedPiece(s: string, keys: Keys)
    requires Leading(keys) && Led(s, keys)
    ensures Led(Trim(TrimBackslashes(s)), keys)
  {
    var k := KeyOf(s);
    LedIsTight(s, keys);
    assert s[|k| - 1] == k[|k| - 1] && !EndsWith(k, '\\');
    BackslashesKeep(s, |k|);
    LedPrefix(s, TrimBackslashes(s), keys);
    LedTrimmed(TrimBackslashes(s), keys);
  }

  // ---------- From lines to directives ----------

  predicate LineLed(line: string, keys: Keys) {
    Silent(line) || Led(Trim(line), keys)
  }

  predicate PendingLed(current: string, keys: Keys) {
    current == "" || Led(current, keys)
  }

  lemma AbsorbLed(raw: string, current: string, keys: Keys)
    requires Leading(keys) && LineLed(raw, keys) && PendingLed(current, keys)
    ensures PendingLed(Absorb(raw, current).1, keys)
    ensures forall l :: l in Absorb(raw, current).0 ==> Led(l, keys)
  {
    AbsorbTrims(raw, current);
    var t := Trim(raw);
    if t == "" {
      if current != "" {
        LedTrimmed(current, keys);
      }
    } else if !StartsWith(t, '#') {
      var piece := if EndsWith(t, '\\') then Trim(TrimBackslashes(t)) else t;
      if EndsWith(t, '\\') {
        LedPiece(t, keys);
        LedIsTight(piece, keys);
      }
      if current != "" {
        LedMore(current, piece, keys);
        LedTrimmed(Appended(current, piece), keys);
      }
    }
  }

  lemma {:induction false} LogicalLed(lines: seq<string>, current: string, keys: Keys)
    requires Leading(keys) && (forall l :: l in lines ==> LineLed(l, keys)) && PendingLed(current, keys)
    ensures forall l :: l in LogicalFrom(lines, current) ==> Led(l, keys)
    decreases lines
  {
    if lines == [] {
      if current != "" {
        LedTrimmed(current, keys);
      }
    } else {
      assert lines[0] in lines;
      AbsorbLed(lines[0], current, keys);
      LogicalLed(lines[1..], Absorb(lines[0], current).1, keys);
    }
  }

  ghost predicate Keyed(ds: seq<Directive>, keys: Keys) {
    forall d :: d in ds ==> keys(d.key)
  }

  lemma {:induction false} DirectivesKeyed(lines: seq<string>, keys: Keys)
    requires Leading(keys) && forall l :: l in lines ==> Led(l, keys)
    ensures Keyed(DirectivesFrom(lines), keys)
  {
    if lines != [] {
      assert lines[0] in lines;
      LedTrimmed(lines[0], keys);
      DirectivesKeyed(lines[1..], keys);
    }
  }

  /** Text written line by line: every directive read back from it has a key of its lines, even when
      lines run on into each other. */
  lemma WrittenLines(lines: seq<string>, keys: Keys)
    requires Leading(keys) && forall l :: l in lines ==> Unbroken(l) && LineLed(l, keys)
    ensures Keyed(Directives(Unlines(lines)), keys)
  {
    LinesOfUnbroken(lines);
    var read := Lines(Unlines(lines));
    forall l | l in read ensures LineLed(l, keys) {
      var i :| 0 <= i < |read| && read[i] == l;
      assert Trim(read[i]) == Trim(lines[i]) && lines[i] in lines;
    }
    LogicalLed(read, "", keys);
    DirectivesKeyed(LogicalFrom(read, ""), keys);
  }

  // ---------- Fields are unbroken ----------

  predicate Within(part: string, whole: string) {
    forall c :: c in part ==> c in whole
  }

  lemma TrimWithin(s: string)
    ensures Within(Trim(s), s) && Within(TrimEnd(s), s)
  {
    var a, b := TrimSplits(s);
    var c := TrimEndSplits(s);
  }

  lemma {:induction false} BackslashesWithin(s: string)
    ensures Within(TrimBackslashes(s), s)
  {
    if EndsWith(s, '\\') {
      BackslashesWithin(s[..|s| - 1]);
    }
  }

  lemma AbsorbUnbroken(raw: string, current: string)
    requires Unbroken(raw) && Unbroken(current)
    ensures Unbroken(Absorb(raw, current).1)
    ensures forall l :: l in Absorb(raw, current).0 ==> Unbroken(l)
  {
    AbsorbTrims(raw, current);
    var t := Trim(raw);
    TrimWithin(raw);
    BackslashesWithin(t);
    TrimWithin(TrimBackslashes(t));
    TrimWithin(current);
    TrimWithin(Appended(current, t));
  }

  lemma {:induction false} LogicalUnbroken(lines: seq<string>, current: string)
    requires (forall l :: l in lines ==> Unbroken(l)) && Unbroken(current)
    ensures forall l :: l in LogicalFrom(lines, current) ==> Unbroken(l)
    decreases lines
  {
    if lines == [] {
      TrimWithin(current);
    } else {
      assert lines[0] in lines;
      AbsorbUnbroken(lines[0], current);
      LogicalUnbroken(lines[1..], Absorb(lines[0], current).1);
    }
  }

  lemma ValueWithin(line: string)
    ensures Within(ValueOf(line), line)
  {
    if WordLength(line) < |line| {
      TrimWithin(line[WordLength(line) + 1..]);
    }
  }

  lemma {:induction false} ValuesUnbroken(lines: seq<string>)
    requires forall l :: l in lines ==> Unbroken(l)
    ensures forall d :: d in DirectivesFrom(lines) ==> Unbroken(d.value)
  {
    if lines != [] {
      assert lines[0] in lines;
      TrimWithin(lines[0]);
      ValueWithin(Trim(lines[0]));
      ValuesUnbroken(lines[1..]);
    }
  }

  lemma DirectivesUnbroken(text: string)
    ensures forall d :: d in Directives(text) ==> Unbroken(d.value)
  {
    LinesAreUnbroken(text);
    LogicalUnbroken(Lines(text), "");
    ValuesUnbroken(LogicalLines(text));
  }

  lemma SplitOptionsWithin(value: string)
    ensures Within(SplitTargetOptions(value).0, value) && Within(SplitTargetOptions(value).1, value)
  {
    var t := Trim(value);
    TrimWithin(value);
    ValueWithin(t);
    if StartsWith(t, '/') && SlashSpace(t[1..]) < |t| - 1 {
      var rest := t[1..];
      assert t[0] == '/' && t[0] in t;
      TrimWithin(rest[SlashSpace(rest) + 2..]);
    }
  }

  lemma SplitValueWithin(value: string)
    ensures Within(SplitTargetValue(value).0, value) && Within(SplitTargetValue(value).1, value)
  {
    var t := Trim(value);
    TrimWithin(value);
    SplitOptionsWithin(value);
    if StartsWith(t, '/') && LastSlash(t[1..]) < |t| - 1 {
      var rest := t[1..];
      assert t[0] == '/' && t[0] in t;
      TrimWithin(rest[LastSlash(rest) + 1..]);
    }
  }

  lemma OptionUnbroken(value: string, name: string)
    ensures NamedOption(value, name).Some? ==> Unbroken(NamedOption(value, name).value)
  {
    var words := Words(value);
    NamedOptionReads(value, name);
    WordsAreWords(value);
    if NamedOption(value, name).Some? {
      var k: nat :| k + 1 < |words| && FirstAmong(words, name, k) && NamedOption(value, name) == Some(words[k + 1]);
      assert words[k + 1] in words && IsSpace('\n');
    }
  }

  /** What a parser found breaks no line and stands under the keys of its list. */
  ghost predicate Writable(a: Assets) {
    && (forall item :: item in a.routingItems ==>
          IsRoutingKey(item.ruleType) && Unbroken(item.target) && Unbroken(item.value))
    && (forall r :: r in a.ipRules ==> IsIpRuleKey(r.ruleType) && Unbroken(r.target) && Unbroken(r.options))
    && (forall d :: d in a.domainSets ==> Unbroken(d.name) && Unbroken(d.file) && Unbroken(d.setType))
    && (forall s :: s in a.ipSets ==> Unbroken(s.name) && Unbroken(s.file))
  }

  lemma SetsAreWritable(d: Directive, groupName: string)
    requires Unbroken(d.value) && (d.key == "domain-set" || d.key == "ip-set")
    ensures Writable(AddedAs(d, groupName))
  {
    OptionUnbroken(d.value, "-name");
    OptionUnbroken(d.value, "-file");
    OptionUnbroken(d.value, "-type");
    assert Unbroken("list") && Unbroken("");
  }

  lemma AddedIsWritable(d: Directive, group: Option<RuleGroup>)
    requires Unbroken(d.value)
    ensures Writable(AddedBy(d, group))
  {
    if d.key == "domain-set" || d.key == "ip-set" {
      SetsAreWritable(d, GroupName(group));
    } else {
      SplitOptionsWithin(d.value);
      SplitValueWithin(d.value);
    }
  }

  lemma PlusIsWritable(a: Assets, b: Assets)
    requires Writable(a) && Writable(b)
    ensures Writable(Plus(a, b))
  {
  }

  lemma {:induction false} ParsedIsWritable(ds: seq<Directive>, group: Option<RuleGroup>)
    requires forall d :: d in ds ==> Unbroken(d.value)
    ensures Writable(ParseFrom(ds, group))
    decreases ds
  {
    if ds != [] {
      assert ds[0] in ds;
      AddedIsWritable(ds[0], group);
      ParsedIsWritable(ds[1..], GroupAfter(ds[0], group));
      PlusIsWritable(AddedBy(ds[0], group), ParseFrom(ds[1..], GroupAfter(ds[0], group)));
    }
  }

  lemma AssetsAreWritable(text: string)
    ensures Writable(ParseAssets(text))
  {
    DirectivesUnbroken(text);
    ParsedIsWritable(Directives(text), None);
  }

  // ---------- The three pages of assets ----------

  predicate IsNameserver(key: string) {
    key == "nameserver"
  }

  predicate IsRuleKey(key: string) {
    (IsRoutingKey(key) && key != "nameserver") || IsIpRuleKey(key)
  }

  predicate IsSetKey(key: string) {
    key == "domain-set" || key == "ip-set"
  }

  lemma RoutingKeysLead(k: string)
    requires IsRoutingKey(k)
    ensures LeadingKey(k)
  {
  }

  lemma IpRuleKeysLead(k: string)
    requires IsIpRuleKey(k)
    ensures LeadingKey(k)
  {
  }

  lemma SetKeysLead(k: string)
    requires IsSetKey(k)
    ensures LeadingKey(k)
  {
  }

  lemma KeysLead()
    ensures Leading(IsNameserver) && Leading(IsSetKey) && Leading(IsRuleKey)
  {
    forall k | IsRoutingKey(k) ensures LeadingKey(k) {
      RoutingKeysLead(k);
    }
    forall k | IsIpRuleKey(k) ensures LeadingKey(k) {
      IpRuleKeysLead(k);
    }
    forall k | IsSetKey(k) ensures LeadingKey(k) {
      SetKeysLead(k);
    }
    assert IsRoutingKey("nameserver");
  }

  lemma LineIsLed(key: string, rest: string, keys: Keys)
    requires Leading(keys) && keys(key) && Unbroken(rest)
    ensures Unbroken(key + " " + rest) && LineLed(key + " " + rest, keys)
  {
    var line := key + " " + rest;
    assert line[|key|] == ' ' && IsSpace('\n') && '\n' !in key;
    LedBy(key, line);
    LedTrimmed(line, keys);
  }

  lemma {:induction false} LinesForAre<T>(items: seq<T>, line: T -> string)
    ensures forall l :: l in LinesFor(items, line) ==> exists item :: item in items && l == line(item)
  {
    if items != [] {
      LinesForAre(items[..|items| - 1], line);
    }
  }

  /** Lines that say nothing, or what the page is for. */
  predicate Fit(lines: seq<string>, keys: Keys) {
    forall l :: l in lines ==> Unbroken(l) && LineLed(l, keys)
  }

  lemma BlockFits(title: string, lines: seq<string>, keys: Keys)
    requires CommentLine(title) && Fit(lines, keys)
    ensures Fit(Block(title, lines), keys)
  {
    CommentsAreSilent(title);
    assert Silent("");
  }

  lemma SectionFits(title: string, blocks: seq<string>, placeholder: string, keys: Keys)
    requires Leading(keys) && CommentLine(title) && CommentLine(placeholder) && Fit(blocks, keys)
    ensures Keyed(Directives(Section(title, blocks, placeholder)), keys)
  {
    CommentIs("Generated by smartdns-plus-ui");
    CommentsAreSilent(GENERATED);
    CommentsAreSilent(title);
    CommentsAreSilent(placeholder);
    assert Silent("");
    var lines := [GENERATED, title, ""] + if blocks == [] then [placeholder] else blocks;
    assert Fit(lines, keys);
    UnlinesIsJoin(lines);
    WrittenLines(lines, keys);
  }

  lemma RoutesFit(a: Assets, nameservers: bool, keys: Keys)
    requires Writable(a) && Leading(keys)
    requires keys == if nameservers then IsNameserver else IsRuleKey
    ensures Fit(LinesFor(Routed(a.routingItems, nameservers), RoutingLine), keys)
  {
    var items := Routed(a.routingItems, nameservers);
    RoutedAreItems(a.routingItems, nameservers);
    LinesForAre(items, RoutingLine);
    forall item | item in items ensures Unbroken(RoutingLine(item)) && LineLed(RoutingLine(item), keys) {
      LineIsLed(item.ruleType, RoutingValue(item), keys);
    }
  }

  lemma IpRulesFit(a: Assets)
    requires Writable(a)
    ensures Fit(LinesFor(a.ipRules, IpRuleLine), IsRuleKey)
  {
    KeysLead();
    LinesForAre(a.ipRules, IpRuleLine);
    forall r | r in a.ipRules ensures Unbroken(IpRuleLine(r)) && LineLed(IpRuleLine(r), IsRuleKey) {
      LineIsLed(r.ruleType, SpacedValue(r.target, r.options), IsRuleKey);
    }
  }

  lemma SetsFit(a: Assets)
    requires Writable(a)
    ensures Fit(LinesFor(a.domainSets, DomainSetLine), IsSetKey)
    ensures Fit(LinesFor(a.ipSets, IpSetLine), IsSetKey)
  {
    var keys := IsSetKey;
    KeysLead();
    LinesForAre(a.domainSets, DomainSetLine);
    LinesForAre(a.ipSets, IpSetLine);
    forall d | d in a.domainSets ensures Unbroken(DomainSetLine(d)) && LineLed(DomainSetLine(d), keys) {
      LineIsLed("domain-set", "-name " + d.name + " -type " + d.setType + " -file " + d.file, keys);
    }
    forall s | s in a.ipSets ensures Unbroken(IpSetLine(s)) && LineLed(IpSetLine(s), keys) {
      LineIsLed("ip-set", "-name " + s.name + " -file " + s.file, keys);
    }
  }

  lemma CommentsAreSilent(line: string)
    requires CommentLine(line)
    ensures Silent(line) && Unbroken(line)
  {
    TrimEndKeepsHead(line);
    assert line == line[..2] + line[2..];
  }

  lemma RoutingPage(a: Assets)
    requires Writable(a)
    ensures Keyed(Directives(RoutingText(a)), IsNameserver)
  {
    var lines := LinesFor(Routed(a.routingItems, true), RoutingLine);
    KeysLead();
    RoutesFit(a, true, IsNameserver);
    RoutingTitles();
    BlockFits(ROUTES_TITLE, lines, IsNameserver);
    SectionFits(ROUTING_TITLE, Block(ROUTES_TITLE, lines), NO_ROUTES, IsNameserver);
  }

  lemma RulesPage(a: Assets)
    requires Writable(a)
    ensures Keyed(Directives(RulesText(a)), IsRuleKey)
  {
    var routes, rules := LinesFor(Routed(a.routingItems, false), RoutingLine), LinesFor(a.ipRules, IpRuleLine);
    KeysLead();
    RoutesFit(a, false, IsRuleKey);
    IpRulesFit(a);
    RuleTitles();
    BlockFits(DOMAIN_RULES_TITLE, routes, IsRuleKey);
    BlockFits(IP_RULES_TITLE, rules, IsRuleKey);
    SectionFits(RULES_TITLE, Block(DOMAIN_RULES_TITLE, routes) + Block(IP_RULES_TITLE, rules), NO_RULES, IsRuleKey);
  }

  lemma SetsPage(a: Assets)
    requires Writable(a)
    ensures Keyed(Directives(SetsText(a)), IsSetKey)
  {
    var keys := IsSetKey;
    var sets, more := LinesFor(a.domainSets, DomainSetLine), LinesFor(a.ipSets, IpSetLine);
    KeysLead();
    SetsFit(a);
    SetTitles();
    BlockFits(DOMAIN_SETS_TITLE, sets, keys);
    BlockFits(IP_SETS_TITLE, more, keys);
    SectionFits(SETS_TITLE, Block(DOMAIN_SETS_TITLE, sets) + Block(IP_SETS_TITLE, more), NO_SETS, keys);
  }

  /** Whatever text the assets were parsed from, continuations, stray backslashes and all: the page of
      routing items holds nameserver directives only, the page of rules none of these, and the page
      of sets only sets. */
  lemma PagesKeepTheirKeys(text: string)
    ensures var a := ParseAssets(text);
            && Keyed(Directives(RoutingText(a)), IsNameserver)
            && Keyed(Directives(RulesText(a)), IsRuleKey) && !IsRuleKey("nameserver")
            && Keyed(Directives(SetsText(a)), IsSetKey)
  {
    AssetsAreWritable(text);
    RoutingPage(ParseAssets(text));
    RulesPage(ParseAssets(text));
    SetsPage(ParseAssets(text));
  }
}
