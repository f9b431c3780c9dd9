/** Rendering managed assets into their three sections, and what reading them back gives. */
module AssetsRoundTrip {
  import opened Common
  import opened Text
  import opened ConfigLines
  import opened ManagedAssets

  // ---------- Rendering ----------

  function DomainSetLine(d: DomainSet): string {
    "domain-set" + " " + ("-name " + d.name + " -type " + d.setType + " -file " + d.file)
  }

  function IpSetLine(s: IpSet): string {
    "ip-set" + " " + ("-name " + s.name + " -file " + s.file)
  }

  function NameserverValue(item: RoutingItem): string {
    if item.value == "" then item.target else item.target + "/" + item.value
  }

  function SlashEnded(target: string): string {
    if EndsWith(target, '/') then target else target + "/"
  }

  function SpacedValue(target: string, value: string): string {
    if value == "" then target else target + " " + value
  }

  /** The text after the key of a routing item. */
  function RoutingValue(item: RoutingItem): string {
    if item.ruleType == "nameserver" then NameserverValue(item)
    else SpacedValue(SlashEnded(item.target), item.value)
  }

  function RoutingLine(item: RoutingItem): string {
    item.ruleType + " " + RoutingValue(item)
  }

  function IpRuleLine(r: IpRule): string {
    r.ruleType + " " + SpacedValue(r.target, r.options)
  }

  function LinesFor<T>(items: seq<T>, line: T -> string): seq<string> {
    if items == [] then [] else LinesFor(items[..|items| - 1], line) + [line(items[|items| - 1])]
  }

  function Routed(items: seq<RoutingItem>, nameservers: bool): seq<RoutingItem> {
    if items == [] then []
    else
      var last := items[|items| - 1];
      Routed(items[..|items| - 1], nameservers) + if (last.ruleType == "nameserver") == nameservers then [last] else []
  }

  /** A titled list of lines and a blank line, or nothing for an empty list. */
  function Block(title: string, lines: seq<string>): seq<string> {
    if lines == [] then [] else [title] + lines + [""]
  }

  const GENERATED := "# " + "Generated by smartdns-plus-ui"

  /** A section: its head, its blocks, and a placeholder when there is none. */
  function Section(title: string, blocks: seq<string>, placeholder: string): string {
    Join([GENERATED, title, ""] + (if blocks == [] then [placeholder] else blocks) + [""], "\n")
  }

  const SETS_TITLE := "# " + "集合管理（domain-set / ip-set）"
  const DOMAIN_SETS_TITLE := "# " + "── 域名集合 ──"
  const IP_SETS_TITLE := "# " + "── IP 集合 ──"
  const NO_SETS := "# " + "还没有任何集合定义。"
  const ROUTING_TITLE := "# " + "上游分流（nameserver）"
  const ROUTES_TITLE := "# " + "── 分流规则 ──"
  const NO_ROUTES := "# " + "还没有任何上游分流规则。"
  const RULES_TITLE := "# " + "规则（domain-rules / address / cname / ip-rules）"
  const DOMAIN_RULES_TITLE := "# " + "── 域名规则与地址改写 ──"
  const IP_RULES_TITLE := "# " + "── IP 规则 ──"
  const NO_RULES := "# " + "还没有任何规则。"

  function SetsText(a: Assets): string {
    Section(SETS_TITLE, Block(DOMAIN_SETS_TITLE, LinesFor(a.domainSets, DomainSetLine)) +
                        Block(IP_SETS_TITLE, LinesFor(a.ipSets, IpSetLine)), NO_SETS)
  }

  function RoutingText(a: Assets): string {
    Section(ROUTING_TITLE, Block(ROUTES_TITLE, LinesFor(Routed(a.routingItems, true), RoutingLine)), NO_ROUTES)
  }

  function RulesText(a: Assets): string {
    Section(RULES_TITLE, Block(DOMAIN_RULES_TITLE, LinesFor(Routed(a.routingItems, false), RoutingLine)) +
                         Block(IP_RULES_TITLE, LinesFor(a.ipRules, IpRuleLine)), NO_RULES)
  }

  /** The order in which the whole is rendered, and the order in which the pages are read. */
  function RenderedText(a: Assets): string {
    JoinNonemptySections([SetsText(a), RoutingText(a), RulesText(a)])
  }

  function PagesText(a: Assets): string {
    JoinNonemptySections([RoutingText(a), RulesText(a), SetsText(a)])
  }

  // ---------- The normal form ----------

  /** A target that starts with a slash loses one slash at its end; any other target gains one. */
  function NormalTarget(target: string): string {
    var t := SlashEnded(target);
    if StartsWith(target, '/') && t != "/" then t[..|t| - 1] else t
  }

  function NormalRoute(item: RoutingItem): RoutingItem {
    if item.ruleType == "nameserver" then item else item.(target := NormalTarget(item.target))
  }

  function NormalRoutes(items: seq<RoutingItem>): seq<RoutingItem> {
    if items == [] then [] else NormalRoutes(items[..|items| - 1]) + [NormalRoute(items[|items| - 1])]
  }

  function Ungroup(rules: seq<IpRule>): seq<IpRule> {
    if rules == [] then [] else Ungroup(rules[..|rules| - 1]) + [rules[|rules| - 1].(groupName := "")]
  }

  /** Nameserver items first, the others after them, targets normalised, no groups and no client
      rules, and the group of every ip rule cleared. */
  function Normal(a: Assets): Assets {
    Assets([], [], Ungroup(a.ipRules),
           NormalRoutes(Routed(a.routingItems, true)) + NormalRoutes(Routed(a.routingItems, false)),
           a.domainSets, a.ipSets)
  }

  // ---------- Well-formed items ----------

  predicate Optional(s: string) {
    s == "" || IsWord(s)
  }

  predicate FreeText(s: string) {
    Tight(s) && Unbroken(s)
  }

  /** Words, and no earlier field that an option name would find first. */
  predicate SetShaped(d: DomainSet) {
    && IsWord(d.name) && IsWord(d.setType) && Optional(d.file)
    && (d.name == "-type" ==> d.setType == "-type")
    && (d.name == "-file" ==> d.file == "-type")
    && (d.name != "-file" && d.setType == "-file" ==> d.file == "-file")
    && !EndsWith(Trim(DomainSetLine(d)), '\\')
  }

  predicate IpSetShaped(s: IpSet) {
    && IsWord(s.name) && Optional(s.file) && (s.name == "-file" ==> s.file == "-file")
    && !EndsWith(Trim(IpSetLine(s)), '\\')
  }

  /** What the slash-splitting parser needs of a routing item. */
  predicate Splittable(item: RoutingItem) {
    if item.ruleType == "nameserver" then
      if item.value == "" then StartsWith(item.target, '/') ==> '/' !in item.target[1..]
      else StartsWith(item.target, '/') && '/' !in item.value
    else StartsWith(item.target, '/') ==> '/' !in item.value
  }

  predicate RouteShaped(item: RoutingItem) {
    IsRoutingKey(item.ruleType) && IsWord(item.target) && FreeText(item.value) && Splittable(item) &&
    !EndsWith(RoutingLine(item), '\\')
  }

  predicate IpRuleShaped(r: IpRule) {
    IsIpRuleKey(r.ruleType) && IsWord(r.target) && FreeText(r.options) && SpaceSplittable(r.target, r.options) &&
    !EndsWith(IpRuleLine(r), '\\')
  }

  /** No slash and space before which the parser would cut instead. */
  predicate SpaceSplittable(target: string, options: string) {
    StartsWith(target, '/') ==>
      var rest := SpacedValue(target, options)[1..];
      SlashSpace(rest) == |rest|
  }

  predicate Shaped(a: Assets) {
    && (forall d :: d in a.domainSets ==> SetShaped(d))
    && (forall s :: s in a.ipSets ==> IpSetShaped(s))
    && (forall item :: item in a.routingItems ==> RouteShaped(item))
    && (forall r :: r in a.ipRules ==> IpRuleShaped(r))
  }

  // ---------- Routing items ----------

  lemma {:induction false} LastSlashIs(a: string, b: string)
    requires '/' !in b
    ensures LastSlash(a + "/" + b) == |a|
    decreases |a|
  {
    if a == "" {
      assert a + "/" + b == "/" + b && ("/" + b)[1..] == b;
    } else {
      assert (a + "/" + b)[1..] == a[1..] + "/" + b;
      LastSlashIs(a[1..], b);
    }
  }

  lemma {:induction false} NoLastSlash(s: string)
    requires '/' !in s
    ensures LastSlash(s) == |s|
  {
    if s != "" {
      NoLastSlash(s[1..]);
    }
  }

  lemma {:induction false} NoSlashSpace(s: string)
    requires '/' !in s
    ensures SlashSpace(s) == |s|
  {
    if |s| >= 2 {
      NoSlashSpace(s[1..]);
    }
  }

  lemma {:induction false} NoSpaceNoCut(s: string)
    requires forall c :: c in s ==> !IsSpace(c)
    ensures SlashSpace(s) == |s|
  {
    if |s| >= 2 {
      assert s[1] in s;
      NoSpaceNoCut(s[1..]);
    }
  }

  lemma SpacedIsTight(target: string, value: string)
    requires IsWord(target) && FreeText(value)
    ensures Tight(SpacedValue(target, value)) && Unbroken(SpacedValue(target, value))
    ensures KeyOf(SpacedValue(target, value)) == target && ValueOf(SpacedValue(target, value)) == value
  {
    WordIsTight(target);
    KeyAndValue(target, value);
    TrimOfTight(value);
    assert '\n' in target ==> IsSpace('\n');
  }

  lemma SlashEndedIsWord(target: string)
    requires IsWord(target)
    ensures IsWord(SlashEnded(target)) && EndsWith(SlashEnded(target), '/')
  {
  }

  lemma NameserverIsTight(target: string, value: string)
    requires IsWord(target) && FreeText(value)
    ensures FreeText(NameserverValue(RoutingItem("nameserver", target, value)))
  {
    WordIsTight(target);
    assert '\n' in target ==> IsSpace('\n');
  }

  lemma BareTargetSplits(target: string)
    requires IsWord(target)
    ensures SplitTargetValue(target) == (target, "") <==> (StartsWith(target, '/') ==> '/' !in target[1..])
  {
    SpacedIsTight(target, "");
    TrimOfTight(target);
    if StartsWith(target, '/') {
      if '/' !in target[1..] {
        NoLastSlash(target[1..]);
        NoSlashSpace(target[1..]);
      } else {
        assert LastSlash(target[1..]) < |target[1..]|;
        assert |"/" + target[1..][..LastSlash(target[1..])]| < |target|;
      }
    }
  }

  /** A text cut by a slash: the parser cuts there, or later when the tail has a slash of its own. */
  lemma CutAtSlash(text: string, head: string, tail: string)
    requires Tight(text) && text == "/" + head + "/" + tail
    ensures '/' !in tail ==> SplitTargetValue(text) == ("/" + head, Trim(tail))
    ensures '/' in tail ==> |SplitTargetValue(text).0| > |head| + 1
  {
    TrimOfTight(text);
    var rest := text[1..];
    assert rest == head + "/" + tail;
    if '/' in tail {
      LateSlash(head, tail);
    } else {
      LastSlashIs(head, tail);
      assert rest[..|head|] == head && rest[|head| + 1..] == tail;
    }
  }

  lemma SlashedTargetSplits(target: string, value: string)
    requires IsWord(target) && FreeText(value) && value != "" && StartsWith(target, '/')
    ensures SplitTargetValue(target + "/" + value) == (target, value) <==> '/' !in value
  {
    var text, head := target + "/" + value, target[1..];
    NameserverIsTight(target, value);
    assert "/" + head == target;
    CutAtSlash(text, head, value);
    TrimOfTight(value);
  }

  lemma UnslashedTargetFails(target: string, value: string)
    requires IsWord(target) && FreeText(value) && value != "" && !StartsWith(target, '/')
    ensures SplitTargetValue(target + "/" + value) != (target, value)
  {
    var text := target + "/" + value;
    NameserverIsTight(target, value);
    TrimOfTight(text);
    assert text == target + ("/" + value) && !StartsWith(text, '/');
    NoWordEnds(target, "/" + value);
  }

  lemma NameserverSplits(target: string, value: string)
    requires IsWord(target) && FreeText(value)
    ensures var item := RoutingItem("nameserver", target, value);
            SplitTargetValue(NameserverValue(item)) == (target, value) <==> Splittable(item)
  {
    if value == "" {
      BareTargetSplits(target);
    } else if StartsWith(target, '/') {
      SlashedTargetSplits(target, value);
    } else {
      UnslashedTargetFails(target, value);
    }
  }

  lemma {:induction false} LateSlash(a: string, b: string)
    requires '/' in b
    ensures |a| < LastSlash(a + "/" + b) < |a + "/" + b|
    decreases |a|
  {
    var s := a + "/" + b;
    if a == "" {
      assert s[1..] == b;
    } else {
      assert s[1..] == a[1..] + "/" + b;
      LateSlash(a[1..], b);
    }
  }

  /** Text that goes on after a word has a longer first word. */
  lemma NoWordEnds(word: string, rest: string)
    requires IsWord(word) && rest != "" && !IsSpace(rest[0])
    ensures |KeyOf(word + rest)| > |word|
  {
    LongerWord(word, rest);
  }

  lemma {:induction false} LongerWord(word: string, rest: string)
    requires (forall c :: c in word ==> !IsSpace(c)) && rest != "" && !IsSpace(rest[0])
    ensures WordLength(word + rest) > |word|
  {
    if word == "" {
      assert word + rest == rest;
    } else {
      assert word[0] in word && (word + rest)[1..] == word[1..] + rest;
      LongerWord(word[1..], rest);
    }
  }

  /** No slash in a text is followed by a space. */
  predicate NoSlashSpaceIn(s: string) {
    forall i :: 0 <= i < |s| - 1 ==> !(s[i] == '/' && s[i + 1] == ' ')
  }

  lemma {:induction false} FirstSlashSpace(head: string, tail: string)
    requires NoSlashSpaceIn(head)
    ensures SlashSpace(head + "/ " + tail) == |head|
    decreases |head|
  {
    var s := head + "/ " + tail;
    if head != "" {
      assert s[1..] == head[1..] + "/ " + tail;
      assert s[1] == if |head| > 1 then head[1] else '/';
      FirstSlashSpace(head[1..], tail);
    }
  }

  /** A target that starts with a slash ends at the first slash before a space, which is not part of it,
      and the options are what follows. */
  lemma SlashedOptionsSplit(head: string, options: string)
    requires NoSlashSpaceIn(head) && FreeText(options) && options != ""
    ensures SplitTargetOptions("/" + head + "/ " + options) == ("/" + head, options)
  {
    var value, rest := "/" + head + "/ " + options, head + "/ " + options;
    assert value == "/" + rest && value[|value| - 1] == options[|options| - 1];
    TrimOfTight(value);
    TrimOfTight(options);
    FirstSlashSpace(head, options);
    assert value[1..] == rest && rest[..|head|] == head && rest[|head| + 2..] == options;
  }

  /** A slash-ended target, and the value after a space. */
  lemma RouteSplits(target: string, value: string)
    requires IsWord(target) && FreeText(value)
    ensures SplitTargetValue(SpacedValue(SlashEnded(target), value)) == (NormalTarget(target), value) <==>
            (StartsWith(target, '/') ==> '/' !in value)
  {
    var t := SlashEnded(target);
    var text := SpacedValue(t, value);
    SlashEndedIsWord(target);
    SpacedIsTight(t, value);
    TrimOfTight(text);
    assert t[0] == target[0];
    if StartsWith(target, '/') {
      if t == "/" {
        RootSplits(value);
      } else {
        SlashedSplits(t, value);
      }
    }
  }

  lemma RootSplits(value: string)
    requires FreeText(value)
    ensures SplitTargetValue(SpacedValue("/", value)) == ("/", value) <==> '/' !in value
  {
    var text := SpacedValue("/", value);
    assert IsWord("/");
    SpacedIsTight("/", value);
    TrimOfTight(text);
    var rest := text[1..];
    assert rest == if value == "" then "" else " " + value;
    if '/' in value {
      RootWithSlash(rest);
    } else {
      assert '/' !in rest;
      NoLastSlash(rest);
      NoSlashSpace(rest);
    }
  }

  lemma RootWithSlash(rest: string)
    requires '/' in rest && rest[0] != '/'
    ensures 0 < LastSlash(rest) < |rest| && "/" + rest[..LastSlash(rest)] != "/"
  {
    assert |"/" + rest[..LastSlash(rest)]| == LastSlash(rest) + 1;
  }

  function Spaced(value: string): string {
    if value == "" then "" else " " + value
  }

  lemma SpacedTrims(value: string)
    requires FreeText(value)
    ensures Trim(Spaced(value)) == value && ('/' in Spaced(value) <==> '/' in value)
  {
    TrimOfTight(value);
    if value != "" {
      TrimIgnoresEnds(value, ' ');
    }
  }

  lemma SpacedParts(t: string, value: string) returns (head: string)
    requires |t| >= 2 && t[0] == '/' && EndsWith(t, '/')
    ensures "/" + head == t[..|t| - 1] && SpacedValue(t, value) == "/" + head + "/" + Spaced(value)
  {
    head := t[1..|t| - 1];
    assert "/" + head + "/" == t;
    if value == "" {
      assert t + "" == t;
    } else {
      Reassociate(t, " ", value);
    }
  }

  lemma SlashedSplits(t: string, value: string)
    requires IsWord(t) && |t| >= 2 && t[0] == '/' && EndsWith(t, '/') && FreeText(value)
    ensures SplitTargetValue(SpacedValue(t, value)) == (t[..|t| - 1], value) <==> '/' !in value
  {
    var head := SpacedParts(t, value);
    SpacedIsTight(t, value);
    CutAtSlash(SpacedValue(t, value), head, Spaced(value));
    SpacedTrims(value);
  }

  /** A rendered routing item reads back in normal form exactly when no slash misleads the parser. */
  lemma RoutingItemSplits(item: RoutingItem)
    requires IsWord(item.target) && FreeText(item.value)
    ensures var n := NormalRoute(item);
            SplitTargetValue(RoutingValue(item)) == (n.target, n.value) <==> Splittable(item)
  {
    if item.ruleType == "nameserver" {
      NameserverSplits(item.target, item.value);
      assert item == RoutingItem("nameserver", item.target, item.value);
    } else {
      RouteSplits(item.target, item.value);
    }
  }

  /** The same for ip rules, which split at a slash and space or at the first space. */
  lemma IpRuleSplits(target: string, options: string)
    requires IsWord(target) && FreeText(options)
    ensures SplitTargetOptions(SpacedValue(target, options)) == (target, options) <==> SpaceSplittable(target, options)
  {
    var text := SpacedValue(target, options);
    SpacedIsTight(target, options);
    TrimOfTight(text);
    if StartsWith(target, '/') {
      var rest := text[1..];
      var n := SlashSpace(rest);
      if options == "" {
        NoSpaceNoCut(rest);
      }
      if n < |rest| {
        assert rest[n] == '/' && rest[n + 1] == ' ' && |"/" + rest[..n]| == n + 1;
        assert options != "" ==> text[|target|] == ' ' && text[n + 1] == '/';
      }
    }
  }

  // ---------- Lines that read back ----------

  predicate NoGroups(ds: seq<Directive>) {
    forall d :: d in ds ==> !IsGroupKey(d.key)
  }

  /** Directives outside any group, and the assets they add up to. */
  predicate Adds(ds: seq<Directive>, a: Assets) {
    NoGroups(ds) && ParseFrom(ds, None) == a
  }

  lemma {:induction false} AddsJoin(xs: seq<Directive>, a: Assets, ys: seq<Directive>, b: Assets)
    requires Adds(xs, a) && Adds(ys, b)
    ensures Adds(xs + ys, Plus(a, b))
    decreases xs
  {
    if xs == [] {
      assert xs + ys == ys;
      PlusIsMonoid(b, b, b);
    } else {
      assert xs[0] in xs && (xs + ys)[1..] == xs[1..] + ys;
      AddsJoin(xs[1..], ParseFrom(xs[1..], None), ys, b);
      PlusIsMonoid(AddedBy(xs[0], None), ParseFrom(xs[1..], None), b);
    }
  }

  predicate Gives(lines: seq<string>, a: Assets) {
    (forall l :: l in lines ==> Rendered(l)) && Adds(Spoken(lines), a)
  }

  lemma GivesJoin(xs: seq<string>, a: Assets, ys: seq<string>, b: Assets)
    requires Gives(xs, a) && Gives(ys, b)
    ensures Gives(xs + ys, Plus(a, b))
  {
    SpokenAppend(xs, ys);
    AddsJoin(Spoken(xs), a, Spoken(ys), b);
  }

  lemma CommentGives(text: string)
    requires Unbroken(text) && !EndsWith(text, '\r')
    ensures Gives(["# " + text], NOTHING)
  {
    var line := "# " + text;
    assert TrimStart(line) == line;
    TrimEndLast(line);
    TrimEndKeepsHead(line);
    SilentGives(line);
  }

  lemma SilentGives(line: string)
    requires Clean(line) && Silent(line)
    ensures Gives([line], NOTHING)
  {
    var rest: seq<string> := [line][1..];
    assert rest == [];
  }

  /** A line made of a key and a rest is one directive. */
  lemma KeyedLine(key: string, rest: string)
    requires IsWord(key) && key[0] != '#' && rest != "" && !IsSpace(rest[0])
    requires Unbroken(rest) && !EndsWith(rest, '\r') && !EndsWith(Trim(key + " " + rest), '\\')
    ensures Gives([key + " " + rest], AddedBy(Directive(key, Trim(rest)), None)) || IsGroupKey(key)
  {
    var line := key + " " + rest;
    KeyedTrim(key, rest);
    KeyAndValue(key, Trim(rest));
    TrimOfTight(Trim(rest));
    assert '\n' in key ==> IsSpace('\n');
    OneDirective(line, Directive(key, Trim(rest)));
  }

  lemma KeyedTrim(key: string, rest: string)
    requires IsWord(key) && rest != "" && !IsSpace(rest[0])
    ensures Trim(key + " " + rest) == key + " " + Trim(rest) && Tight(Trim(rest)) && Trim(rest) != ""
  {
    var blank := TrimEndSplits(rest);
    TrimEndLast(rest);
    TrimEndKeepsHead(rest);
    assert TrimStart(rest) == rest;
    WordIsTight(key);
    var head := key + " " + Trim(rest);
    assert Tight(head);
    Reassociate(key + " ", Trim(rest), blank);
    assert key + " " + rest == "" + head + blank;
    TrimOfPadded("", head, blank);
  }

  lemma OneDirective(line: string, d: Directive)
    requires Rendered(line) && !Silent(line) && DirectiveOf(Trim(line)) == d
    ensures Gives([line], AddedBy(d, None)) || IsGroupKey(d.key)
  {
    if !IsGroupKey(d.key) {
      SpokenAlone(line);
      AddsAlone(d);
    }
  }

  lemma AddsAlone(d: Directive)
    requires !IsGroupKey(d.key)
    ensures Adds([d], AddedBy(d, None))
  {
    var ds := [d];
    assert ds[1..] == [] && GroupAfter(d, None) == None;
    assert ParseFrom(ds, None) == Plus(AddedBy(d, None), NOTHING);
    PlusIsMonoid(AddedBy(d, None), NOTHING, NOTHING);
  }

  lemma SpokenAlone(line: string)
    requires !Silent(line)
    ensures Spoken([line]) == [DirectiveOf(Trim(line))]
  {
    var lines := [line];
    assert lines[1..] == [] && Spoken(lines[1..]) == [];
  }

  // ---------- One line for each kind of item ----------

  lemma KeysDiffer(key: string)
    requires IsRoutingKey(key) || IsIpRuleKey(key) || key == "domain-set" || key == "ip-set"
    ensures !IsGroupKey(key) && key != "client-rules" && key != "" && key[0] != '#'
    ensures IsRoutingKey(key) ==> !IsIpRuleKey(key)
    ensures key == "domain-set" || key == "ip-set" ==> !IsRoutingKey(key) && !IsIpRuleKey(key)
  {
    assert "domain-rules"[0] != "whitelist-ip"[0] && "domain-rules"[0] != "blacklist-ip"[0];
    assert "domain-set"[0] != "nameserver"[0] && "ignore-ip"[0] != "group-end"[0];
    assert "client-rules"[0] != "domain-rules"[0] && "client-rules"[0] != "whitelist-ip"[0];
    assert "client-rules"[0] != "blacklist-ip"[0];
  }

  lemma RoutingKeyIsWord(key: string)
    requires IsRoutingKey(key)
    ensures IsWord(key)
  {
    if key == "nameserver" { assert IsWord("nameserver"); }
    else if key == "domain-rules" { assert IsWord("domain-rules"); }
    else if key == "address" { assert IsWord("address"); }
    else { assert IsWord("cname"); }
  }

  lemma IpRuleKeyIsWord(key: string)
    requires IsIpRuleKey(key)
    ensures IsWord(key)
  {
    if key == "ip-rules" { assert IsWord("ip-rules"); }
    else if key == "whitelist-ip" { assert IsWord("whitelist-ip"); }
    else if key == "blacklist-ip" { assert IsWord("blacklist-ip"); }
    else if key == "ignore-ip" { assert IsWord("ignore-ip"); }
    else if key == "bogus-nxdomain" { assert IsWord("bogus-nxdomain"); }
    else { assert IsWord("ip-alias"); }
  }

  function AddRoute(item: RoutingItem): Assets {
    NOTHING.(routingItems := [NormalRoute(item)])
  }

  function AddIpRule(r: IpRule): Assets {
    NOTHING.(ipRules := [r.(groupName := "")])
  }

  function AddDomainSet(d: DomainSet): Assets {
    NOTHING.(domainSets := [d])
  }

  function AddIpSet(s: IpSet): Assets {
    NOTHING.(ipSets := [s])
  }

  lemma RoutingValueIsFree(item: RoutingItem)
    requires IsWord(item.target) && FreeText(item.value)
    ensures FreeText(RoutingValue(item)) && RoutingValue(item) != "" && !IsSpace(RoutingValue(item)[0])
  {
    if item.ruleType == "nameserver" {
      NameserverIsTight(item.target, item.value);
      assert item == RoutingItem("nameserver", item.target, item.value);
    } else {
      SlashEndedIsWord(item.target);
      SpacedIsTight(SlashEnded(item.target), item.value);
    }
  }

  lemma KeyedTight(key: string, rest: string)
    requires IsWord(key) && FreeText(rest) && rest != ""
    ensures Trim(key + " " + rest) == key + " " + rest && Trim(rest) == rest
  {
    WordIsTight(key);
    assert Tight(key + " " + rest);
    TrimOfTight(key + " " + rest);
    TrimOfTight(rest);
  }

  lemma RouteGives(item: RoutingItem)
    requires RouteShaped(item)
    ensures Gives([RoutingLine(item)], AddRoute(item))
  {
    var key, rest := item.ruleType, RoutingValue(item);
    RoutingKeyIsWord(key);
    KeysDiffer(key);
    RoutingValueIsFree(item);
    KeyedTight(key, rest);
    KeyedLine(key, rest);
    RoutingItemSplits(item);
    RoutingAdds(Directive(key, rest), NormalRoute(item));
  }

  lemma RoutingAdds(d: Directive, item: RoutingItem)
    requires IsRoutingKey(d.key) && item.ruleType == d.key && SplitTargetValue(d.value) == (item.target, item.value)
    ensures AddedBy(d, None) == NOTHING.(routingItems := [item])
  {
    KeysDiffer(d.key);
  }

  lemma IpRuleGives(r: IpRule)
    requires IpRuleShaped(r)
    ensures Gives([IpRuleLine(r)], AddIpRule(r))
  {
    var key, rest := r.ruleType, SpacedValue(r.target, r.options);
    IpRuleKeyIsWord(key);
    KeysDiffer(key);
    SpacedIsTight(r.target, r.options);
    KeyedTight(key, rest);
    KeyedLine(key, rest);
    IpRuleSplits(r.target, r.options);
  }

  lemma {:induction false} WordsOfBlankEnd(s: string, blank: string)
    requires Blank(blank)
    ensures Words(s + blank) == Words(s)
  {
    if blank == "" {
      assert s + blank == s;
    } else {
      var rest := blank[1..];
      assert blank[0] in blank && s + blank == s + [blank[0]] + rest;
      WordsSplit(s, blank[0], rest);
      assert rest + "" == rest;
      WordsOfBlankStart(rest, "");
    }
  }

  lemma WordsOfTrim(s: string)
    ensures Words(Trim(s)) == Words(s)
  {
    var a, b := TrimSplits(s);
    assert s == a + (Trim(s) + b);
    WordsOfBlankStart(a, Trim(s) + b);
    WordsOfBlankEnd(Trim(s), b);
  }

  function MaybeWord(s: string): seq<string> {
    if s == "" then [] else [s]
  }

  lemma WordThen(w: string, rest: string)
    requires IsWord(w)
    ensures Words(w + " " + rest) == [w] + Words(rest)
  {
    assert w + " " + rest == w + (" " + rest);
    WordsCons(w, " " + rest);
    WordsOfBlankStart(" ", rest);
  }

  lemma WordsOfOptional(s: string)
    requires Optional(s)
    ensures Words(s) == MaybeWord(s)
  {
    if s != "" {
      assert s + "" == s;
      WordsCons(s, "");
    }
  }

  lemma Nest(a: string, b: string, c: string, d: string, e: string, f: string)
    ensures a + b + c + d + e + f == a + b + (c + d + (e + f))
  {
    Reassociate(a + b + c + d, e, f);
    Reassociate(a + b, c, d);
    Reassociate(a + b, c + d, e + f);
  }

  /** A flag and its word, then more. */
  lemma FlagThenWord(flag: string, w: string, rest: string)
    requires IsWord(flag) && IsWord(w) && (rest == "" || rest[0] == ' ')
    ensures Words(flag + " " + w + rest) == [flag, w] + Words(rest)
  {
    Reassociate(flag + " ", w, rest);
    WordsCons(w, rest);
    WordThen(flag, w + rest);
    Reassociate([flag], [w], Words(rest));
  }

  lemma SpacedFlag(flag: string, w: string, rest: string)
    ensures Words(" " + (flag + " ") + w + rest) == Words(flag + " " + w + rest)
  {
    Reassociate(" ", flag + " ", w);
    Reassociate(" ", flag + " " + w, rest);
    WordsOfBlankStart(" ", flag + " " + w + rest);
  }

  lemma LastFlag(flag: string, w: string)
    requires IsWord(flag) && Optional(w)
    ensures Words(" " + (flag + " ") + w) == [flag] + MaybeWord(w)
  {
    WordsOfOptional(w);
    WordThen(flag, w);
    Reassociate(" ", flag + " ", w);
    WordsOfBlankStart(" ", flag + " " + w);
  }

  lemma ThreeFlags(a: string, n: string, b: string, t: string, c: string, f: string)
    requires IsWord(a) && IsWord(n) && IsWord(b) && IsWord(t) && IsWord(c) && Optional(f)
    ensures Words(a + " " + n + (" " + (b + " ")) + t + (" " + (c + " ")) + f) == [a, n, b, t, c] + MaybeWord(f)
  {
    var last := " " + (c + " ") + f;
    var middle := " " + (b + " ") + t + last;
    Nest(a + " ", n, " " + (b + " "), t, " " + (c + " "), f);
    LastFlag(c, f);
    SpacedFlag(b, t, last);
    FlagThenWord(b, t, last);
    FlagThenWord(a, n, middle);
    FiveWords(a, n, b, t, c, MaybeWord(f));
  }

  lemma FiveWords(a: string, n: string, b: string, t: string, c: string, f: seq<string>)
    ensures [a, n] + ([b, t] + ([c] + f)) == [a, n, b, t, c] + f
  {
  }

  lemma DomainSetWords(d: DomainSet)
    requires IsWord(d.name) && IsWord(d.setType) && Optional(d.file)
    ensures Words("-name " + d.name + " -type " + d.setType + " -file " + d.file) ==
            ["-name", d.name, "-type", d.setType, "-file"] + MaybeWord(d.file)
  {
    assert IsWord("-name") && IsWord("-type") && IsWord("-file");
    assert "-name " == "-name" + " " && " -type " == " " + ("-type" + " ") && " -file " == " " + ("-file" + " ");
    ThreeFlags("-name", d.name, "-type", d.setType, "-file", d.file);
  }

  lemma IpSetWords(s: IpSet)
    requires IsWord(s.name) && Optional(s.file)
    ensures Words("-name " + s.name + " -file " + s.file) == ["-name", s.name, "-file"] + MaybeWord(s.file)
  {
    assert IsWord("-name") && IsWord("-file");
    assert "-name " == "-name" + " " && " -file " == " " + ("-file" + " ");
    LastFlag("-file", s.file);
    FlagThenWord("-name", s.name, " -file " + s.file);
    Reassociate("-name " + s.name, " -file ", s.file);
  }

  lemma OptionNamesDiffer()
    ensures "-name" != "-type" && "-name" != "-file" && "-type" != "-file"
  {
    assert "-name"[1] != "-type"[1] && "-name"[1] != "-file"[1] && "-type"[1] != "-file"[1];
  }

  lemma OptionStep(tokens: seq<string>, name: string)
    requires |tokens| >= 2
    ensures tokens[0] == name ==> OptionAfter(tokens, name) == Some(tokens[1])
    ensures tokens[0] != name ==> OptionAfter(tokens, name) == OptionAfter(tokens[1..], name)
  {
  }

  /** Domain-set options are found exactly when no field is taken for an option name. */
  lemma DomainSetOptions(d: DomainSet)
    requires IsWord(d.name) && IsWord(d.setType) && Optional(d.file)
    requires (d.name == "-type" ==> d.setType == "-type") && (d.name == "-file" ==> d.file == "-type")
    requires d.name != "-file" && d.setType == "-file" ==> d.file == "-file"
    ensures var tokens := ["-name", d.name, "-type", d.setType, "-file"] + MaybeWord(d.file);
            && OptionAfter(tokens, "-name") == Some(d.name) && OptionAfter(tokens, "-type") == Some(d.setType)
            && OptionAfter(tokens, "-file").GetOr("") == d.file
  {
    OptionNamesDiffer();
    var t4 := ["-file"] + MaybeWord(d.file);
    var t3 := [d.setType] + t4;
    var t2 := ["-type"] + t3;
    var t1 := [d.name] + t2;
    var tokens := ["-name"] + t1;
    assert tokens == ["-name", d.name, "-type", d.setType, "-file"] + MaybeWord(d.file);
    assert tokens[1..] == t1 && t1[1..] == t2 && t2[1..] == t3 && t3[1..] == t4;
    OptionStep(tokens, "-name");
    OptionStep(tokens, "-type");
    OptionStep(t1, "-type");
    OptionStep(t2, "-type");
    OptionStep(tokens, "-file");
    OptionStep(t1, "-file");
    OptionStep(t2, "-file");
    OptionStep(t3, "-file");
  }

  lemma IpSetOptions(s: IpSet)
    requires IsWord(s.name) && Optional(s.file) && (s.name == "-file" ==> s.file == "-file")
    ensures var tokens := ["-name", s.name, "-file"] + MaybeWord(s.file);
            OptionAfter(tokens, "-name") == Some(s.name) && OptionAfter(tokens, "-file").GetOr("") == s.file
  {
    OptionNamesDiffer();
    var t2 := ["-file"] + MaybeWord(s.file);
    var t1 := [s.name] + t2;
    var tokens := ["-name"] + t1;
    assert tokens == ["-name", s.name, "-file"] + MaybeWord(s.file);
    assert tokens[1..] == t1 && t1[1..] == t2;
    OptionStep(tokens, "-name");
    OptionStep(tokens, "-file");
    OptionStep(t1, "-file");
  }

  lemma DomainSetRest(d: DomainSet) returns (rest: string)
    requires SetShaped(d)
    ensures DomainSetLine(d) == "domain-set" + " " + rest && rest != "" && rest[0] == '-'
    ensures Unbroken(rest) && !EndsWith(rest, '\r')
    ensures Words(rest) == ["-name", d.name, "-type", d.setType, "-file"] + MaybeWord(d.file)
  {
    rest := "-name " + d.name + " -type " + d.setType + " -file " + d.file;
    WordsUnbroken(d.name);
    WordsUnbroken(d.setType);
    WordsUnbroken(d.file);
    SixUnbroken("-name ", d.name, " -type ", d.setType, " -file ", d.file);
    DomainSetWords(d);
  }

  lemma SixUnbroken(a: string, b: string, c: string, d: string, e: string, f: string)
    requires Unbroken(a) && Unbroken(b) && Unbroken(c) && Unbroken(d) && Unbroken(e) && Unbroken(f)
    requires a != "" && e != "" && !EndsWith(e, '\r') && !EndsWith(f, '\r')
    ensures var all := a + b + c + d + e + f;
            Unbroken(all) && !EndsWith(all, '\r') && all != "" && all[0] == a[0]
  {
  }

  lemma DomainSetGives(d: DomainSet)
    requires SetShaped(d)
    ensures Gives([DomainSetLine(d)], AddDomainSet(d))
  {
    var rest := DomainSetRest(d);
    assert IsWord("domain-set");
    KeysDiffer("domain-set");
    KeyedLine("domain-set", rest);
    WordsOfTrim(rest);
    DomainSetOptions(d);
    SetAdds(Directive("domain-set", Trim(rest)), d);
  }

  lemma SetAdds(line: Directive, d: DomainSet)
    requires line.key == "domain-set" && d.name != ""
    requires NamedOption(line.value, "-name") == Some(d.name) && NamedOption(line.value, "-type") == Some(d.setType)
    requires NamedOption(line.value, "-file").GetOr("") == d.file
    ensures AddedBy(line, None) == AddDomainSet(d)
  {
    KeysDiffer("domain-set");
  }

  lemma WordsUnbroken(s: string)
    requires Optional(s)
    ensures Unbroken(s) && !EndsWith(s, '\r')
  {
    assert '\n' in s ==> IsSpace('\n');
    assert '\r' in s ==> IsSpace('\r');
  }

  lemma IpSetGives(s: IpSet)
    requires IpSetShaped(s)
    ensures Gives([IpSetLine(s)], AddIpSet(s))
  {
    var rest := "-name " + s.name + " -file " + s.file;
    WordsUnbroken(s.name);
    WordsUnbroken(s.file);
    assert IsWord("ip-set");
    KeysDiffer("ip-set");
    KeyedLine("ip-set", rest);
    WordsOfTrim(rest);
    IpSetWords(s);
    IpSetOptions(s);
  }

  // ---------- Blocks and sections ----------

  function SumOf<T>(items: seq<T>, add: T -> Assets): Assets {
    if items == [] then NOTHING else Plus(SumOf(items[..|items| - 1], add), add(items[|items| - 1]))
  }

  lemma {:induction false} LinesForGive<T>(items: seq<T>, line: T -> string, add: T -> Assets)
    requires forall x :: x in items ==> Gives([line(x)], add(x))
    ensures Gives(LinesFor(items, line), SumOf(items, add))
  {
    if items != [] {
      var init, last := items[..|items| - 1], items[|items| - 1];
      LinesForGive(init, line, add);
      assert last in items;
      GivesJoin(LinesFor(init, line), SumOf(init, add), [line(last)], add(last));
    }
  }

  lemma NoMore<T>()
    ensures var none: seq<T> := []; none + none == none
  {
  }

  lemma NothingMore()
    ensures Plus(NOTHING, NOTHING) == NOTHING
  {
    NoMore<RuleGroup>();
    NoMore<ClientRule>();
    NoMore<IpRule>();
    NoMore<RoutingItem>();
    NoMore<DomainSet>();
    NoMore<IpSet>();
  }

  lemma PlusSets(a: seq<DomainSet>, b: seq<DomainSet>, c: seq<IpSet>, d: seq<IpSet>)
    ensures Plus(NOTHING.(domainSets := a), NOTHING.(domainSets := b)) == NOTHING.(domainSets := a + b)
    ensures Plus(NOTHING.(ipSets := c), NOTHING.(ipSets := d)) == NOTHING.(ipSets := c + d)
  {
    NothingMore();
  }

  lemma {:induction false} SumOfDomainSets(items: seq<DomainSet>)
    ensures SumOf(items, AddDomainSet) == NOTHING.(domainSets := items)
  {
    if items != [] {
      var init, last := items[..|items| - 1], items[|items| - 1];
      assert init + [last] == items;
      SumOfDomainSets(init);
      PlusSets(init, [last], [], []);
    }
  }

  lemma {:induction false} SumOfIpSets(items: seq<IpSet>)
    ensures SumOf(items, AddIpSet) == NOTHING.(ipSets := items)
  {
    if items != [] {
      var init, last := items[..|items| - 1], items[|items| - 1];
      assert init + [last] == items;
      SumOfIpSets(init);
      PlusSets([], [], init, [last]);
    }
  }

  lemma {:induction false} SumOfRoutes(items: seq<RoutingItem>)
    ensures SumOf(items, AddRoute) == NOTHING.(routingItems := NormalRoutes(items))
  {
    if items != [] {
      SumOfRoutes(items[..|items| - 1]);
    }
  }

  lemma {:induction false} SumOfIpRules(items: seq<IpRule>)
    ensures SumOf(items, AddIpRule) == NOTHING.(ipRules := Ungroup(items))
  {
    if items != [] {
      SumOfIpRules(items[..|items| - 1]);
    }
  }

  /** A comment line as the renderers write it. */
  predicate CommentLine(line: string) {
    |line| >= 2 && line[..2] == "# " && Unbroken(line[2..]) && !EndsWith(line[2..], '\r')
  }

  lemma CommentLineGives(line: string)
    requires CommentLine(line)
    ensures Gives([line], NOTHING)
  {
    CommentGives(line[2..]);
    assert line == "# " + line[2..];
  }

  lemma BlockGives(title: string, lines: seq<string>, a: Assets)
    requires CommentLine(title) && Gives(lines, a)
    ensures Gives(Block(title, lines), a)
  {
    if lines != [] {
      CommentLineGives(title);
      SilentGives("");
      GivesJoin([title], NOTHING, lines, a);
      GivesJoin([title] + lines, Plus(NOTHING, a), [""], NOTHING);
      PlusIsMonoid(a, a, a);
    }
  }

  predicate TextGives(text: string, a: Assets) {
    Adds(Directives(text), a)
  }

  lemma SectionGives(title: string, blocks: seq<string>, placeholder: string, a: Assets)
    requires CommentLine(title) && CommentLine(placeholder) && Gives(blocks, a)
    ensures TextGives(Section(title, blocks, placeholder), a)
  {
    var head, body := [GENERATED, title, ""], if blocks == [] then [placeholder] else blocks;
    HeadGives(title);
    CommentLineGives(placeholder);
    assert Gives(body, a);
    GivesJoin(head, NOTHING, body, a);
    PlusIsMonoid(a, a, a);
    LinesGiveText(head + body, a);
  }

  lemma LinesGiveText(lines: seq<string>, a: Assets)
    requires Gives(lines, a)
    ensures TextGives(Join(lines + [""], "\n"), a)
  {
    UnlinesIsJoin(lines);
    DirectivesOfRendered(lines);
  }

  lemma HeadGives(title: string)
    requires CommentLine(title)
    ensures Gives([GENERATED, title, ""], NOTHING)
  {
    CommentIs("Generated by smartdns-plus-ui");
    CommentsGive(GENERATED, title);
  }

  lemma CommentsGive(first: string, second: string)
    requires CommentLine(first) && CommentLine(second)
    ensures Gives([first, second, ""], NOTHING)
  {
    CommentLineGives(first);
    CommentLineGives(second);
    SilentGives("");
    PlusIsMonoid(NOTHING, NOTHING, NOTHING);
    GivesJoin([first], NOTHING, [second], NOTHING);
    GivesJoin([first] + [second], NOTHING, [""], NOTHING);
    assert [first] + [second] + [""] == [first, second, ""];
  }

  lemma ThreeTexts(x: string, a: Assets, y: string, b: Assets, z: string, c: Assets)
    requires TextGives(x, a) && TextGives(y, b) && TextGives(z, c)
    ensures ParseAssets(JoinNonemptySections([x, y, z])) == Plus(a, Plus(b, c))
  {
    SectionsKeepDirectives([x, y, z]);
    ThreeParts(x, y, z);
    AddsJoin(Directives(y), b, Directives(z), c);
    AddsJoin(Directives(x), a, Directives(y) + Directives(z), Plus(b, c));
  }

  lemma ThreeParts(x: string, y: string, z: string)
    ensures DirectivesOfAll([x, y, z]) == Directives(x) + (Directives(y) + Directives(z))
  {
    var xyz, yz, last := [x, y, z], [y, z], [z];
    assert xyz[1..] == yz && yz[1..] == last && last[1..] == [];
    assert DirectivesOfAll(last) == Directives(z) + [];
  }

  // ---------- The three sections ----------

  function SetAssets(a: Assets): Assets {
    NOTHING.(domainSets := a.domainSets, ipSets := a.ipSets)
  }

  function RoutingAssets(a: Assets): Assets {
    NOTHING.(routingItems := NormalRoutes(Routed(a.routingItems, true)))
  }

  function RuleAssets(a: Assets): Assets {
    NOTHING.(routingItems := NormalRoutes(Routed(a.routingItems, false)), ipRules := Ungroup(a.ipRules))
  }

  lemma DomainSetsGive(items: seq<DomainSet>)
    requires forall d :: d in items ==> SetShaped(d)
    ensures Gives(LinesFor(items, DomainSetLine), NOTHING.(domainSets := items))
  {
    forall d | d in items ensures Gives([DomainSetLine(d)], AddDomainSet(d)) {
      DomainSetGives(d);
    }
    LinesForGive(items, DomainSetLine, AddDomainSet);
    SumOfDomainSets(items);
  }

  lemma IpSetsGive(items: seq<IpSet>)
    requires forall s :: s in items ==> IpSetShaped(s)
    ensures Gives(LinesFor(items, IpSetLine), NOTHING.(ipSets := items))
  {
    forall s | s in items ensures Gives([IpSetLine(s)], AddIpSet(s)) {
      IpSetGives(s);
    }
    LinesForGive(items, IpSetLine, AddIpSet);
    SumOfIpSets(items);
  }

  lemma IpRulesGive(items: seq<IpRule>)
    requires forall r :: r in items ==> IpRuleShaped(r)
    ensures Gives(LinesFor(items, IpRuleLine), NOTHING.(ipRules := Ungroup(items)))
  {
    forall r | r in items ensures Gives([IpRuleLine(r)], AddIpRule(r)) {
      IpRuleGives(r);
    }
    LinesForGive(items, IpRuleLine, AddIpRule);
    SumOfIpRules(items);
  }

  lemma PlusParts(a: Assets)
    ensures Plus(NOTHING.(domainSets := a.domainSets), NOTHING.(ipSets := a.ipSets)) == SetAssets(a)
    ensures Plus(RoutePart(a), NOTHING.(ipRules := Ungroup(a.ipRules))) == RuleAssets(a)
  {
    NothingMore();
  }

  function RoutePart(a: Assets): Assets {
    NOTHING.(routingItems := NormalRoutes(Routed(a.routingItems, false)))
  }

  lemma SetsGive(a: Assets)
    requires Shaped(a)
    ensures TextGives(SetsText(a), SetAssets(a))
  {
    DomainSetsGive(a.domainSets);
    IpSetsGive(a.ipSets);
    SetTitles();
    PlusParts(a);
    TwoBlockSection(SETS_TITLE, DOMAIN_SETS_TITLE, LinesFor(a.domainSets, DomainSetLine),
                    NOTHING.(domainSets := a.domainSets), IP_SETS_TITLE, LinesFor(a.ipSets, IpSetLine),
                    NOTHING.(ipSets := a.ipSets), NO_SETS);
  }

  lemma TwoBlockSection(title: string, t: string, xs: seq<string>, a: Assets, u: string, ys: seq<string>, b: Assets,
                        placeholder: string)
    requires CommentLine(title) && CommentLine(t) && CommentLine(u) && CommentLine(placeholder)
    requires Gives(xs, a) && Gives(ys, b)
    ensures TextGives(Section(title, Block(t, xs) + Block(u, ys), placeholder), Plus(a, b))
  {
    BlockGives(t, xs, a);
    BlockGives(u, ys, b);
    GivesJoin(Block(t, xs), a, Block(u, ys), b);
    SectionGives(title, Block(t, xs) + Block(u, ys), placeholder, Plus(a, b));
  }

  lemma CommentIs(text: string)
    requires Unbroken(text) && !EndsWith(text, '\r')
    ensures CommentLine("# " + text)
  {
    assert ("# " + text)[2..] == text;
  }

  lemma SetTitles()
    ensures CommentLine(SETS_TITLE) && CommentLine(DOMAIN_SETS_TITLE) && CommentLine(IP_SETS_TITLE) &&
            CommentLine(NO_SETS)
  {
    CommentIs("集合管理（domain-set / ip-set）");
    CommentIs("── 域名集合 ──");
    CommentIs("── IP 集合 ──");
    CommentIs("还没有任何集合定义。");
  }

  lemma RoutingTitles()
    ensures CommentLine(ROUTING_TITLE) && CommentLine(ROUTES_TITLE) && CommentLine(NO_ROUTES)
  {
    CommentIs("上游分流（nameserver）");
    CommentIs("── 分流规则 ──");
    CommentIs("还没有任何上游分流规则。");
  }

  lemma RuleTitles()
    ensures CommentLine(RULES_TITLE) && CommentLine(DOMAIN_RULES_TITLE) && CommentLine(IP_RULES_TITLE) &&
            CommentLine(NO_RULES)
  {
    CommentIs("规则（domain-rules / address / cname / ip-rules）");
    CommentIs("── 域名规则与地址改写 ──");
    CommentIs("── IP 规则 ──");
    CommentIs("还没有任何规则。");
  }

  lemma {:induction false} RoutedAreItems(items: seq<RoutingItem>, nameservers: bool)
    ensures forall x :: x in Routed(items, nameservers) <==>
                        x in items && (x.ruleType == "nameserver") == nameservers
  {
    if items != [] {
      RoutedAreItems(items[..|items| - 1], nameservers);
    }
  }

  /** Nameserver items and others make up all items: none is lost or doubled between the two pages. */
  lemma {:induction false} RoutedIsSplit(items: seq<RoutingItem>)
    ensures multiset(Routed(items, true)) + multiset(Routed(items, false)) == multiset(items)
  {
    if items != [] {
      var init, last := items[..|items| - 1], items[|items| - 1];
      RoutedIsSplit(init);
      assert items == init + [last];
      var kind := last.ruleType == "nameserver";
      assert Routed(items, kind) == Routed(init, kind) + [last] && Routed(items, !kind) == Routed(init, !kind);
    }
  }

  lemma RoutesGive(items: seq<RoutingItem>, nameservers: bool)
    requires forall item :: item in items ==> RouteShaped(item)
    ensures var routed := Routed(items, nameservers);
            Gives(LinesFor(routed, RoutingLine), NOTHING.(routingItems := NormalRoutes(routed)))
  {
    var routed := Routed(items, nameservers);
    RoutedAreItems(items, nameservers);
    forall item | item in routed ensures Gives([RoutingLine(item)], AddRoute(item)) {
      RouteGives(item);
    }
    LinesForGive(routed, RoutingLine, AddRoute);
    SumOfRoutes(routed);
  }

  lemma RoutingGives(a: Assets)
    requires Shaped(a)
    ensures TextGives(RoutingText(a), RoutingAssets(a))
  {
    var routes := LinesFor(Routed(a.routingItems, true), RoutingLine);
    RoutesGive(a.routingItems, true);
    RoutingTitles();
    BlockGives(ROUTES_TITLE, routes, RoutingAssets(a));
    SectionGives(ROUTING_TITLE, Block(ROUTES_TITLE, routes), NO_ROUTES, RoutingAssets(a));
  }

  lemma RulesGive(a: Assets)
    requires Shaped(a)
    ensures TextGives(RulesText(a), RuleAssets(a))
  {
    var others := Routed(a.routingItems, false);
    RoutesGive(a.routingItems, false);
    IpRulesGive(a.ipRules);
    RuleTitles();
    PlusParts(a);
    TwoBlockSection(RULES_TITLE, DOMAIN_RULES_TITLE, LinesFor(others, RoutingLine), RoutePart(a),
                    IP_RULES_TITLE, LinesFor(a.ipRules, IpRuleLine), NOTHING.(ipRules := Ungroup(a.ipRules)), NO_RULES);
  }

  lemma PartsMakeNormal(a: Assets)
    ensures Plus(SetAssets(a), Plus(RoutingAssets(a), RuleAssets(a))) == Normal(a)
    ensures Plus(RoutingAssets(a), Plus(RuleAssets(a), SetAssets(a))) == Normal(a)
  {
  }

  lemma SectionsGive(a: Assets)
    requires Shaped(a)
    ensures TextGives(SetsText(a), SetAssets(a)) && TextGives(RoutingText(a), RoutingAssets(a))
    ensures TextGives(RulesText(a), RuleAssets(a))
  {
    SetsGive(a);
    RoutingGives(a);
    RulesGive(a);
  }

  /** Parsing the rendered text gives the normal form, and so does parsing the three pages joined in
      the order in which they are read. */
  lemma AssetsRoundTrip(a: Assets)
    requires Shaped(a)
    ensures ParseAssets(RenderedText(a)) == Normal(a)
    ensures ParseAssets(PagesText(a)) == Normal(a)
  {
    SectionsGive(a);
    PartsMakeNormal(a);
    AnyThree(SetsText(a), SetAssets(a), RoutingText(a), RoutingAssets(a), RulesText(a), RuleAssets(a), Normal(a));
  }

  lemma AnyThree(x: string, a: Assets, y: string, b: Assets, z: string, c: Assets, whole: Assets)
    requires TextGives(x, a) && TextGives(y, b) && TextGives(z, c)
    requires Plus(a, Plus(b, c)) == whole && Plus(b, Plus(c, a)) == whole
    ensures ParseAssets(JoinNonemptySections([x, y, z])) == whole
    ensures ParseAssets(JoinNonemptySections([y, z, x])) == whole
  {
    ThreeTexts(x, a, y, b, z, c);
    ThreeTexts(y, b, z, c, x, a);
  }

  // ---------- When the normal form is a fixed point ----------

  /** A target that loses a slash in one round and would lose another in the next. */
  predicate DoubleEnded(target: string) {
    |target| >= 3 && target[0] == '/' && target[|target| - 1] == '/' && target[|target| - 2] == '/'
  }

  predicate Settled(item: RoutingItem) {
    item.ruleType == "nameserver" || !DoubleEnded(item.target)
  }

  lemma NormalTargetIs(t: string)
    ensures !StartsWith(t, '/') ==> NormalTarget(t) == SlashEnded(t)
    ensures StartsWith(t, '/') && !EndsWith(t, '/') ==> NormalTarget(t) == t
    ensures StartsWith(t, '/') && EndsWith(t, '/') && |t| >= 2 ==> NormalTarget(t) == t[..|t| - 1]
  {
    assert (t + "/")[..|t|] == t;
  }

  lemma TargetSettles(t: string)
    requires t != ""
    ensures NormalTarget(NormalTarget(t)) == NormalTarget(t) <==> !DoubleEnded(t)
  {
    NormalTargetIs(t);
    if !StartsWith(t, '/') {
      SlashEndedOnce(t);
      NormalTargetIs(SlashEnded(t));
    } else if EndsWith(t, '/') && |t| >= 2 {
      EndedTargetSettles(t);
    }
  }

  lemma SlashEndedOnce(t: string)
    requires t != "" && !StartsWith(t, '/')
    ensures !StartsWith(SlashEnded(t), '/') && SlashEnded(SlashEnded(t)) == SlashEnded(t)
  {
  }

  lemma EndedTargetSettles(t: string)
    requires |t| >= 2 && t[0] == '/' && EndsWith(t, '/')
    ensures NormalTarget(NormalTarget(t)) == NormalTarget(t) <==> !DoubleEnded(t)
  {
    var once := t[..|t| - 1];
    NormalTargetIs(t);
    NormalTargetIs(once);
    if |t| == 2 {
      assert once == "/";
    }
  }

  lemma NormalRouteSettles(item: RoutingItem)
    requires item.target != ""
    ensures NormalRoute(NormalRoute(item)) == NormalRoute(item) <==> Settled(item)
  {
    TargetSettles(item.target);
  }

  lemma {:induction false} NormalRoutesSettle(items: seq<RoutingItem>)
    requires forall item :: item in items ==> item.target != ""
    ensures NormalRoutes(NormalRoutes(items)) == NormalRoutes(items) <==> forall item :: item in items ==> Settled(item)
  {
    if items != [] {
      var init, last := items[..|items| - 1], items[|items| - 1];
      NormalRoutesSettle(init);
      NormalRouteSettles(last);
      assert last in items && forall item :: item in items <==> item in init || item == last;
      var once := NormalRoutes(init) + [NormalRoute(last)];
      assert once[..|once| - 1] == NormalRoutes(init) && once[|once| - 1] == NormalRoute(last);
      LastDiffers(NormalRoutes(NormalRoutes(init)), NormalRoute(NormalRoute(last)), NormalRoutes(init),
                  NormalRoute(last));
    }
  }

  lemma LastDiffers<T>(xs: seq<T>, x: T, ys: seq<T>, y: T)
    ensures xs + [x] == ys + [y] <==> xs == ys && x == y
  {
    if xs + [x] == ys + [y] {
      assert (xs + [x])[|xs|] == (ys + [y])[|ys|];
      assert (xs + [x])[..|xs|] == xs && (ys + [y])[..|ys|] == ys;
    }
  }

  lemma {:induction false} RoutedAppend(a: seq<RoutingItem>, b: seq<RoutingItem>, nameservers: bool)
    ensures Routed(a + b, nameservers) == Routed(a, nameservers) + Routed(b, nameservers)
    decreases |b|
  {
    if b == [] {
      assert a + b == a;
    } else {
      var init, last := b[..|b| - 1], b[|b| - 1];
      assert (a + b)[..|a + b| - 1] == a + init;
      RoutedAppend(a, init, nameservers);
    }
  }

  lemma NormalRoutesSnoc(items: seq<RoutingItem>, item: RoutingItem)
    ensures NormalRoutes(items + [item]) == NormalRoutes(items) + [NormalRoute(item)]
  {
    assert (items + [item])[..|items|] == items;
  }

  lemma RoutedSnoc(items: seq<RoutingItem>, item: RoutingItem, nameservers: bool)
    ensures Routed(items + [item], nameservers) ==
            Routed(items, nameservers) + if (item.ruleType == "nameserver") == nameservers then [item] else []
  {
    assert (items + [item])[..|items|] == items;
  }

  lemma {:induction false} RoutedOfNormal(items: seq<RoutingItem>, kept: bool, nameservers: bool)
    ensures var routes := NormalRoutes(Routed(items, kept));
            Routed(routes, nameservers) == if kept == nameservers then routes else []
  {
    if items != [] {
      var init, last := items[..|items| - 1], items[|items| - 1];
      RoutedOfNormal(init, kept, nameservers);
      if (last.ruleType == "nameserver") == kept {
        NormalRoutesSnoc(Routed(init, kept), last);
        RoutedSnoc(NormalRoutes(Routed(init, kept)), NormalRoute(last), nameservers);
      } else {
        assert Routed(items, kept) == Routed(init, kept);
      }
    }
  }

  lemma {:induction false} UngroupTwice(rules: seq<IpRule>)
    ensures Ungroup(Ungroup(rules)) == Ungroup(rules)
  {
    if rules != [] {
      var init, last := rules[..|rules| - 1], rules[|rules| - 1].(groupName := "");
      UngroupTwice(init);
      assert (Ungroup(init) + [last])[..|Ungroup(init) + [last]| - 1] == Ungroup(init);
    }
  }

  lemma {:induction false} PrefixDiffers<T>(xs: seq<T>, a: seq<T>, ys: seq<T>, b: seq<T>)
    requires |xs| == |ys|
    ensures xs + a == ys + b <==> xs == ys && a == b
  {
    if xs + a == ys + b {
      assert (xs + a)[..|xs|] == xs && (ys + b)[..|ys|] == ys;
      assert (xs + a)[|xs|..] == a && (ys + b)[|ys|..] == b;
    }
  }

  lemma {:induction false} NormalRoutesLength(items: seq<RoutingItem>)
    ensures |NormalRoutes(items)| == |items|
  {
    if items != [] {
      NormalRoutesLength(items[..|items| - 1]);
    }
  }

  lemma NormalTwice(a: Assets)
    requires forall item :: item in a.routingItems ==> item.target != ""
    ensures Normal(Normal(a)) == Normal(a) <==> forall item :: item in a.routingItems ==> Settled(item)
  {
    var servers, others := Routed(a.routingItems, true), Routed(a.routingItems, false);
    var n, m := NormalRoutes(servers), NormalRoutes(others);
    RoutedAppend(n, m, true);
    RoutedAppend(n, m, false);
    RoutedOfNormal(a.routingItems, true, true);
    RoutedOfNormal(a.routingItems, true, false);
    RoutedOfNormal(a.routingItems, false, true);
    RoutedOfNormal(a.routingItems, false, false);
    RoutedAreItems(a.routingItems, true);
    RoutedAreItems(a.routingItems, false);
    UngroupTwice(a.ipRules);
    NormalRoutesSettle(servers);
    NormalRoutesSettle(others);
    NormalRoutesLength(n);
    assert n + [] == n && [] + m == m;
    PrefixDiffers(NormalRoutes(n), NormalRoutes(m), n, m);
  }

  lemma NormalRouteShaped(item: RoutingItem)
    requires RouteShaped(item)
    ensures RouteShaped(NormalRoute(item))
  {
    if item.ruleType != "nameserver" {
      var n := NormalRoute(item);
      SlashEndedIsWord(item.target);
      assert n.target[0] == item.target[0];
      assert forall c :: c in n.target ==> c in SlashEnded(item.target);
      assert !EndsWith(RoutingLine(n), '\\') by {
        assert n.value != "" ==> RoutingLine(item)[|RoutingLine(item)| - 1] == n.value[|n.value| - 1];
      }
    }
  }

  lemma {:induction false} NormalRoutesShaped(items: seq<RoutingItem>)
    requires forall item :: item in items ==> RouteShaped(item)
    ensures forall item :: item in NormalRoutes(items) ==> RouteShaped(item)
  {
    if items != [] {
      NormalRoutesShaped(items[..|items| - 1]);
      NormalRouteShaped(items[|items| - 1]);
    }
  }

  lemma {:induction false} UngroupShaped(rules: seq<IpRule>)
    requires forall r :: r in rules ==> IpRuleShaped(r)
    ensures forall r :: r in Ungroup(rules) ==> IpRuleShaped(r)
  {
    if rules != [] {
      UngroupShaped(rules[..|rules| - 1]);
      var last := rules[|rules| - 1];
      assert last in rules && IpRuleLine(last.(groupName := "")) == IpRuleLine(last);
    }
  }

  lemma NormalIsShaped(a: Assets)
    requires Shaped(a)
    ensures Shaped(Normal(a))
  {
    RoutedAreItems(a.routingItems, true);
    RoutedAreItems(a.routingItems, false);
    NormalRoutesShaped(Routed(a.routingItems, true));
    NormalRoutesShaped(Routed(a.routingItems, false));
    UngroupShaped(a.ipRules);
  }

  /** Saving what was read back changes nothing more, exactly when no target outside the nameserver
      items starts with a slash and ends with two. */
  lemma NormalFormIsFixed(a: Assets)
    requires Shaped(a)
    ensures ParseAssets(RenderedText(Normal(a))) == Normal(a) <==>
            forall item :: item in a.routingItems ==> Settled(item)
  {
    NormalIsShaped(a);
    AssetsRoundTrip(Normal(a));
    NormalTwice(a);
  }

  // ---------- The renderers ----------

  lemma BlockPushed(given: seq<string>, title: string, lines: seq<string>)
    requires lines != []
    ensures given + [title] + lines + [""] == given + Block(title, lines)
  {
    Reassociate(given + [title], lines, [""]);
    Reassociate(given, [title], lines + [""]);
    Reassociate([title], lines, [""]);
  }

  lemma LinesForNext<T>(items: seq<T>, i: nat, line: T -> string)
    requires i < |items|
    ensures LinesFor(items[..i + 1], line) == LinesFor(items[..i], line) + [line(items[i])]
  {
    assert items[..i + 1][..i] == items[..i];
  }

  method PushDomainSets(given: seq<string>, sets: seq<DomainSet>) returns (lines: seq<string>)
    ensures lines == given + Block(DOMAIN_SETS_TITLE, LinesFor(sets, DomainSetLine))
  {
    lines := given;
    if sets != [] {
      lines := lines + [DOMAIN_SETS_TITLE];
      ghost var head := lines;
      for i := 0 to |sets|
        invariant lines == head + LinesFor(sets[..i], DomainSetLine)
      {
        LinesForNext(sets, i, DomainSetLine);
        Reassociate(head, LinesFor(sets[..i], DomainSetLine), [DomainSetLine(sets[i])]);
        lines := lines + [DomainSetLine(sets[i])];
      }
      assert sets[..|sets|] == sets;
      BlockPushed(given, DOMAIN_SETS_TITLE, LinesFor(sets, DomainSetLine));
      lines := lines + [""];
    }
  }

  method PushIpSets(given: seq<string>, sets: seq<IpSet>) returns (lines: seq<string>)
    ensures lines == given + Block(IP_SETS_TITLE, LinesFor(sets, IpSetLine))
  {
    lines := given;
    if sets != [] {
      lines := lines + [IP_SETS_TITLE];
      ghost var head := lines;
      for i := 0 to |sets|
        invariant lines == head + LinesFor(sets[..i], IpSetLine)
      {
        LinesForNext(sets, i, IpSetLine);
        Reassociate(head, LinesFor(sets[..i], IpSetLine), [IpSetLine(sets[i])]);
        lines := lines + [IpSetLine(sets[i])];
      }
      assert sets[..|sets|] == sets;
      BlockPushed(given, IP_SETS_TITLE, LinesFor(sets, IpSetLine));
      lines := lines + [""];
    }
  }

  method RenderRoute(item: RoutingItem) returns (line: string)
    ensures line == RoutingLine(item)
  {
    var target := item.target;
    if item.ruleType == "nameserver" {
      return item.ruleType + " " + (if item.value == "" then target else target + "/" + item.value);
    }
    if !EndsWith(target, '/') {
      target := target + "/";
    }
    line := item.ruleType + " " + (if item.value == "" then target else target + " " + item.value);
  }

  method PushRoutes(given: seq<string>, title: string, items: seq<RoutingItem>) returns (lines: seq<string>)
    ensures lines == given + Block(title, LinesFor(items, RoutingLine))
  {
    lines := given;
    if items != [] {
      lines := lines + [title];
      ghost var head := lines;
      for i := 0 to |items|
        invariant lines == head + LinesFor(items[..i], RoutingLine)
      {
        LinesForNext(items, i, RoutingLine);
        Reassociate(head, LinesFor(items[..i], RoutingLine), [RoutingLine(items[i])]);
        var line := RenderRoute(items[i]);
        lines := lines + [line];
      }
      assert items[..|items|] == items;
      BlockPushed(given, title, LinesFor(items, RoutingLine));
      lines := lines + [""];
    }
  }

  method PushIpRules(given: seq<string>, rules: seq<IpRule>) returns (lines: seq<string>)
    ensures lines == given + Block(IP_RULES_TITLE, LinesFor(rules, IpRuleLine))
  {
    lines := given;
    if rules != [] {
      lines := lines + [IP_RULES_TITLE];
      ghost var head := lines;
      for i := 0 to |rules|
        invariant lines == head + LinesFor(rules[..i], IpRuleLine)
      {
        LinesForNext(rules, i, IpRuleLine);
        Reassociate(head, LinesFor(rules[..i], IpRuleLine), [IpRuleLine(rules[i])]);
        lines := lines + [IpRuleLine(rules[i])];
      }
      assert rules[..|rules|] == rules;
      BlockPushed(given, IP_RULES_TITLE, LinesFor(rules, IpRuleLine));
      lines := lines + [""];
    }
  }

  method FinishSection(title: string, given: seq<string>, ghost blocks: seq<string>, placeholder: string)
    returns (text: string)
    requires given == [GENERATED, title, ""] + blocks
    ensures text == Section(title, blocks, placeholder)
  {
    var lines := given;
    if |lines| <= 3 {
      lines := lines + [placeholder];
    }
    assert lines == [GENERATED, title, ""] + if blocks == [] then [placeholder] else blocks;
    text := Join(lines + [""], "\n");
  }

  method RenderSetsText(a: Assets) returns (text: string)
    ensures text == SetsText(a)
  {
    var head := [GENERATED, SETS_TITLE, ""];
    var lines := PushDomainSets(head, a.domainSets);
    ghost var domain, ip := LinesFor(a.domainSets, DomainSetLine), LinesFor(a.ipSets, IpSetLine);
    lines := PushIpSets(lines, a.ipSets);
    Reassociate(head, Block(DOMAIN_SETS_TITLE, domain), Block(IP_SETS_TITLE, ip));
    text := FinishSection(SETS_TITLE, lines, Block(DOMAIN_SETS_TITLE, domain) + Block(IP_SETS_TITLE, ip), NO_SETS);
  }

  method RenderRoutingItemsText(a: Assets) returns (text: string)
    ensures text == RoutingText(a)
  {
    var items := Routed(a.routingItems, true);
    var lines := PushRoutes([GENERATED, ROUTING_TITLE, ""], ROUTES_TITLE, items);
    text := FinishSection(ROUTING_TITLE, lines, Block(ROUTES_TITLE, LinesFor(items, RoutingLine)), NO_ROUTES);
  }

  method RenderRuleEntriesText(a: Assets) returns (text: string)
    ensures text == RulesText(a)
  {
    var head, items := [GENERATED, RULES_TITLE, ""], Routed(a.routingItems, false);
    var lines := PushRoutes(head, DOMAIN_RULES_TITLE, items);
    ghost var routes, rules := LinesFor(items, RoutingLine), LinesFor(a.ipRules, IpRuleLine);
    lines := PushIpRules(lines, a.ipRules);
    Reassociate(head, Block(DOMAIN_RULES_TITLE, routes), Block(IP_RULES_TITLE, rules));
    text := FinishSection(RULES_TITLE, lines, Block(DOMAIN_RULES_TITLE, routes) + Block(IP_RULES_TITLE, rules),
                          NO_RULES);
  }

  method RenderManagedAssetsText(a: Assets) returns (text: string)
    ensures text == RenderedText(a)
  {
    var sets := RenderSetsText(a);
    var routing := RenderRoutingItemsText(a);
    var rules := RenderRuleEntriesText(a);
    text := JoinNonemptySections([sets, routing, rules]);
  }
}
