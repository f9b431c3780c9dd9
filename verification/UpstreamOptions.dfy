/** Options of an upstream server: the token parser and the renderer. */
module UpstreamOptions {
  import opened Text

  datatype Upstream = Upstream(
    kind: string, value: string, groups: seq<string>, excludeDefaultGroup: bool, proxyName: string,
    bootstrapDns: string, hostIp: string, subnet: string, fallback: bool, options: string, note: string)

  // ---------- Tokens ----------

  datatype Flag = GroupFlag | ExcludeFlag | ProxyFlag | BootstrapFlag | HostIpFlag | SubnetFlag | FallbackFlag | NoFlag

  function FlagOf(token: string): Flag {
    if token == "-g" || token == "-group" then GroupFlag
    else if token == "-e" || token == "-exclude-default-group" then ExcludeFlag
    else if token == "-proxy" then ProxyFlag
    else if token == "-b" || token == "-bootstrap-dns" then BootstrapFlag
    else if token == "-host-ip" then HostIpFlag
    else if token == "-subnet" then SubnetFlag
    else if token == "-fallback" then FallbackFlag
    else NoFlag
  }

  predicate TakesArgument(flag: Flag) {
    flag.GroupFlag? || flag.ProxyFlag? || flag.BootstrapFlag? || flag.HostIpFlag? || flag.SubnetFlag?
  }

  function Spelling(flag: Flag): string {
    match flag
    case GroupFlag => "-group"
    case ExcludeFlag => "-exclude-default-group"
    case ProxyFlag => "-proxy"
    case BootstrapFlag => "-bootstrap-dns"
    case HostIpFlag => "-host-ip"
    case SubnetFlag => "-subnet"
    case FallbackFlag => "-fallback"
    case NoFlag => ""
  }

  lemma SpellingsRead(flag: Flag)
    requires flag != NoFlag
    ensures FlagOf(Spelling(flag)) == flag
  {
    assert "-proxy"[1] != "-group"[1];
    assert "-subnet"[1] != "-bootstrap-dns"[1];
    assert "-host-ip"[1] != "-subnet"[1];
  }

  lemma LongSpellingsAreWords()
    ensures IsWord("-exclude-default-group") && IsWord("-bootstrap-dns")
  {
  }

  lemma ShortSpellingsAreWords()
    ensures IsWord("-group") && IsWord("-proxy") && IsWord("-host-ip") && IsWord("-subnet") && IsWord("-fallback")
  {
  }

  lemma SpellingsAreWords(flag: Flag)
    requires flag != NoFlag
    ensures IsWord(Spelling(flag))
  {
    LongSpellingsAreWords();
    ShortSpellingsAreWords();
  }

  lemma FlagsAreDashed(token: string)
    ensures FlagOf(token) != NoFlag ==> StartsWith(token, '-')
  {
  }

  /** What a run of tokens says: a flag, a flag with its argument, or a token passed through. */
  datatype Item = Switch(flag: Flag) | Setting(flag: Flag, argument: string) | Plain(token: string)

  function Items(tokens: seq<string>): seq<Item>
    decreases tokens
  {
    if tokens == [] then []
    else
      var flag := FlagOf(tokens[0]);
      if TakesArgument(flag) && |tokens| > 1 then [Setting(flag, tokens[1])] + Items(tokens[2..])
      else if flag.ExcludeFlag? || flag.FallbackFlag? then [Switch(flag)] + Items(tokens[1..])
      else if |tokens| > 1 && !StartsWith(tokens[1], '-') then
        [Plain(tokens[0]), Plain(tokens[1])] + Items(tokens[2..])
      else [Plain(tokens[0])] + Items(tokens[1..])
  }

  datatype Fields = Fields(
    groups: seq<string>, excludeDefaultGroup: bool, proxyName: string, bootstrapDns: string,
    hostIp: string, subnet: string, fallback: bool, passthrough: seq<string>)

  const NO_FIELDS := Fields([], false, "", "", "", "", false, [])

  function With(f: Fields, item: Item): Fields {
    match item
    case Setting(GroupFlag, g) => f.(groups := f.groups + [g])
    case Setting(ProxyFlag, v) => f.(proxyName := v)
    case Setting(BootstrapFlag, v) => f.(bootstrapDns := v)
    case Setting(HostIpFlag, v) => f.(hostIp := v)
    case Setting(SubnetFlag, v) => f.(subnet := v)
    case Setting(_, _) => f
    case Switch(ExcludeFlag) => f.(excludeDefaultGroup := true)
    case Switch(FallbackFlag) => f.(fallback := true)
    case Switch(_) => f
    case Plain(token) => f.(passthrough := f.passthrough + [token])
  }

  /** The short flags say what the long ones say. */
  lemma ShortFlagsRead(x: string, rest: seq<string>)
    ensures Items(["-g", x] + rest) == Items(["-group", x] + rest) == [Setting(GroupFlag, x)] + Items(rest)
    ensures Items(["-b", x] + rest) == Items(["-bootstrap-dns", x] + rest) == [Setting(BootstrapFlag, x)] + Items(rest)
    ensures Items(["-e"] + rest) == Items(["-exclude-default-group"] + rest) == [Switch(ExcludeFlag)] + Items(rest)
  {
    SpellingsRead(GroupFlag);
    SpellingsRead(BootstrapFlag);
    SpellingsRead(ExcludeFlag);
    SettingReads("-g", x, rest);
    SettingReads("-group", x, rest);
    SettingReads("-b", x, rest);
    SettingReads("-bootstrap-dns", x, rest);
    assert (["-e"] + rest)[1..] == rest && (["-exclude-default-group"] + rest)[1..] == rest;
  }

  lemma SettingReads(token: string, x: string, rest: seq<string>)
    requires TakesArgument(FlagOf(token))
    ensures Items([token, x] + rest) == [Setting(FlagOf(token), x)] + Items(rest)
  {
    assert ([token, x] + rest)[2..] == rest;
  }

  function Fold(f: Fields, items: seq<Item>): Fields
    decreases items
  {
    if items == [] then f else Fold(With(f, items[0]), items[1..])
  }

  function FieldsOf(tokens: seq<string>): Fields {
    Fold(NO_FIELDS, Items(tokens))
  }

  function ParseUpstream(kind: string, value: string, options: string): Upstream {
    var f := FieldsOf(Words(options));
    Upstream(kind, value, f.groups, f.excludeDefaultGroup, f.proxyName, f.bootstrapDns, f.hostIp, f.subnet,
             f.fallback, Join(f.passthrough, " "), "")
  }

  /** The token loop with its index, field by field. */
  method ParseUpstreamConfig(kind: string, value: string, options: string) returns (cfg: Upstream)
    ensures cfg == ParseUpstream(kind, value, options)
  {
    cfg := Upstream(kind, value, [], false, "", "", "", "", false, "", "");
    var passthrough: seq<string> := [];
    var tokens := Words(options);
    var index := 0;
    assert tokens[0..] == tokens;
    while index < |tokens|
      invariant 0 <= index <= |tokens|
      invariant cfg.kind == kind && cfg.value == value && cfg.options == "" && cfg.note == ""
      invariant Fold(FieldsIn(cfg, passthrough), Items(tokens[index..])) == FieldsOf(tokens)
    {
      var token, rest := tokens[index], tokens[index..];
      ItemsStep(rest, FieldsIn(cfg, passthrough));
      assert index + 2 <= |tokens| ==> rest[2..] == tokens[index + 2..];
      assert rest[1..] == tokens[index + 1..];
      var flag := FlagOf(token);
      if TakesArgument(flag) && index + 1 < |tokens| {
        var next := tokens[index + 1];
        match flag {
          case GroupFlag => cfg := cfg.(groups := cfg.groups + [next]);
          case ProxyFlag => cfg := cfg.(proxyName := next);
          case BootstrapFlag => cfg := cfg.(bootstrapDns := next);
          case HostIpFlag => cfg := cfg.(hostIp := next);
          case SubnetFlag => cfg := cfg.(subnet := next);
          case _ =>
        }
        index := index + 2;
      } else if flag == ExcludeFlag {
        cfg := cfg.(excludeDefaultGroup := true);
        index := index + 1;
      } else if flag == FallbackFlag {
        cfg := cfg.(fallback := true);
        index := index + 1;
      } else {
        passthrough := passthrough + [token];
        if index + 1 < |tokens| && !StartsWith(tokens[index + 1], '-') {
          passthrough := passthrough + [tokens[index + 1]];
          index := index + 2;
        } else {
          index := index + 1;
        }
      }
    }
    cfg := cfg.(options := Join(passthrough, " "));
  }

  function FieldsIn(u: Upstream, passthrough: seq<string>): Fields {
    Fields(u.groups, u.excludeDefaultGroup, u.proxyName, u.bootstrapDns, u.hostIp, u.subnet, u.fallback, passthrough)
  }

  /** One round of the token loop. */
  lemma ItemsStep(tokens: seq<string>, f: Fields)
    requires tokens != []
    ensures var flag := FlagOf(tokens[0]);
            Fold(f, Items(tokens)) ==
            if TakesArgument(flag) && |tokens| > 1 then Fold(With(f, Setting(flag, tokens[1])), Items(tokens[2..]))
            else if flag.ExcludeFlag? || flag.FallbackFlag? then Fold(With(f, Switch(flag)), Items(tokens[1..]))
            else if |tokens| > 1 && !StartsWith(tokens[1], '-') then
              Fold(With(With(f, Plain(tokens[0])), Plain(tokens[1])), Items(tokens[2..]))
            else Fold(With(f, Plain(tokens[0])), Items(tokens[1..]))
  {
    var flag := FlagOf(tokens[0]);
    if TakesArgument(flag) && |tokens| > 1 {
      assert Items(tokens)[1..] == Items(tokens[2..]);
    } else if flag.ExcludeFlag? || flag.FallbackFlag? {
      assert Items(tokens)[1..] == Items(tokens[1..]);
    } else if |tokens| > 1 && !StartsWith(tokens[1], '-') {
      assert Items(tokens)[1..][1..] == Items(tokens[2..]);
    } else {
      assert Items(tokens)[1..] == Items(tokens[1..]);
    }
  }

  // ---------- Nothing is lost or moved ----------

  function Spelled(items: seq<Item>): seq<string> {
    if items == [] then []
    else
      (match items[0]
       case Switch(flag) => [Spelling(flag)]
       case Setting(flag, argument) => [Spelling(flag), argument]
       case Plain(token) => [token]) + Spelled(items[1..])
  }

  /** The long form of a flag stands for its short form. */
  predicate SameToken(written: string, token: string) {
    written == token || (FlagOf(token) != NoFlag && written == Spelling(FlagOf(token)))
  }

  predicate SameTokens(written: seq<string>, tokens: seq<string>) {
    |written| == |tokens| && forall i :: 0 <= i < |tokens| ==> SameToken(written[i], tokens[i])
  }

  lemma SameTokensCons(w: string, written: seq<string>, tokens: seq<string>)
    requires tokens != [] && SameToken(w, tokens[0]) && SameTokens(written, tokens[1..])
    ensures SameTokens([w] + written, tokens)
  {
    forall i | 0 <= i < |tokens| ensures SameToken(([w] + written)[i], tokens[i]) {
      if i > 0 {
        assert tokens[i] == tokens[1..][i - 1];
      }
    }
  }

  lemma PairSpells(a: string, b: string, later: seq<string>, tokens: seq<string>)
    requires |tokens| > 1 && SameToken(a, tokens[0]) && SameToken(b, tokens[1]) && SameTokens(later, tokens[2..])
    ensures SameTokens([a] + ([b] + later), tokens)
  {
    assert tokens[1..][1..] == tokens[2..];
    SameTokensCons(b, later, tokens[1..]);
    SameTokensCons(a, [b] + later, tokens);
  }

  lemma SpelledCons(item: Item, rest: seq<Item>)
    ensures item.Setting? ==> Spelled([item] + rest) == [Spelling(item.flag)] + ([item.argument] + Spelled(rest))
    ensures item.Switch? ==> Spelled([item] + rest) == [Spelling(item.flag)] + Spelled(rest)
    ensures item.Plain? ==> Spelled([item] + rest) == [item.token] + Spelled(rest)
  {
    assert ([item] + rest)[1..] == rest;
  }

  lemma SpelledTwo(a: string, b: string, rest: seq<Item>)
    ensures Spelled([Plain(a), Plain(b)] + rest) == [a] + ([b] + Spelled(rest))
  {
    assert [Plain(a), Plain(b)] + rest == [Plain(a)] + ([Plain(b)] + rest);
    SpelledCons(Plain(a), [Plain(b)] + rest);
    SpelledCons(Plain(b), rest);
  }

  /** The items spell the tokens in their order, short flags written long. */
  lemma {:induction false} ItemsSpellTokens(tokens: seq<string>)
    ensures SameTokens(Spelled(Items(tokens)), tokens)
    decreases tokens
  {
    if tokens != [] {
      var flag := FlagOf(tokens[0]);
      if TakesArgument(flag) && |tokens| > 1 {
        ItemsSpellTokens(tokens[2..]);
        SpelledCons(Setting(flag, tokens[1]), Items(tokens[2..]));
        PairSpells(Spelling(flag), tokens[1], Spelled(Items(tokens[2..])), tokens);
      } else if flag.ExcludeFlag? || flag.FallbackFlag? {
        ItemsSpellTokens(tokens[1..]);
        SpelledCons(Switch(flag), Items(tokens[1..]));
        SameTokensCons(Spelling(flag), Spelled(Items(tokens[1..])), tokens);
      } else if |tokens| > 1 && !StartsWith(tokens[1], '-') {
        ItemsSpellTokens(tokens[2..]);
        SpelledTwo(tokens[0], tokens[1], Items(tokens[2..]));
        PairSpells(tokens[0], tokens[1], Spelled(Items(tokens[2..])), tokens);
      } else {
        ItemsSpellTokens(tokens[1..]);
        SpelledCons(Plain(tokens[0]), Items(tokens[1..]));
        SameTokensCons(tokens[0], Spelled(Items(tokens[1..])), tokens);
      }
    }
  }

  function GroupsIn(items: seq<Item>): seq<string> {
    if items == [] then []
    else (if items[0].Setting? && items[0].flag == GroupFlag then [items[0].argument] else []) + GroupsIn(items[1..])
  }

  function PlainIn(items: seq<Item>): seq<string> {
    if items == [] then [] else (if items[0].Plain? then [items[0].token] else []) + PlainIn(items[1..])
  }

  /** Groups and unrecognised tokens are collected in the order of the items. */
  lemma {:induction false} FoldKeepsOrder(f: Fields, items: seq<Item>)
    ensures Fold(f, items).groups == f.groups + GroupsIn(items)
    ensures Fold(f, items).passthrough == f.passthrough + PlainIn(items)
    decreases items
  {
    if items != [] {
      var next := With(f, items[0]);
      assert next.groups == f.groups + GroupsIn([items[0]]) &&
             next.passthrough == f.passthrough + PlainIn([items[0]]) by {
        assert [items[0]][1..] == [];
      }
      FoldKeepsOrder(next, items[1..]);
      Reassociate(f.groups, GroupsIn([items[0]]), GroupsIn(items[1..]));
      Reassociate(f.passthrough, PlainIn([items[0]]), PlainIn(items[1..]));
    }
  }

  lemma {:induction false} FoldSnoc(f: Fields, items: seq<Item>, item: Item)
    ensures Fold(f, items + [item]) == With(Fold(f, items), item)
    decreases items
  {
    if items == [] {
      assert [] + [item] == [item] && [item][1..] == [];
    } else {
      assert (items + [item])[1..] == items[1..] + [item];
      FoldSnoc(With(f, items[0]), items[1..], item);
    }
  }

  predicate Sets(item: Item, flag: Flag) {
    item.Setting? && item.flag == flag
  }

  /** The argument given last, or nothing when the flag is never given one. */
  ghost predicate LastGiven(items: seq<Item>, flag: Flag, value: string) {
    if exists item :: item in items && Sets(item, flag) then
      exists i :: 0 <= i < |items| && items[i] == Setting(flag, value) &&
        forall j :: i < j < |items| ==> !Sets(items[j], flag)
    else value == ""
  }

  lemma LastGivenSnoc(items: seq<Item>, item: Item, flag: Flag, value: string)
    requires LastGiven(items, flag, value)
    ensures LastGiven(items + [item], flag, if Sets(item, flag) then item.argument else value)
  {
    var all := items + [item];
    if Sets(item, flag) {
      assert all[|items|] == item && item in all;
    } else if x :| x in items && Sets(x, flag) {
      var i :| 0 <= i < |items| && items[i] == Setting(flag, value) &&
               forall j :: i < j < |items| ==> !Sets(items[j], flag);
      assert all[i] == items[i] && x in all;
    } else {
      assert forall y :: y in all ==> y in items || y == item;
    }
  }

  /** The flags whose last argument is kept, and where. */
  predicate IsText(flag: Flag) {
    flag.ProxyFlag? || flag.BootstrapFlag? || flag.HostIpFlag? || flag.SubnetFlag?
  }

  function TextIn(f: Fields, flag: Flag): string
    requires IsText(flag)
  {
    match flag
    case ProxyFlag => f.proxyName
    case BootstrapFlag => f.bootstrapDns
    case HostIpFlag => f.hostIp
    case SubnetFlag => f.subnet
  }

  lemma WithSets(f: Fields, item: Item, flag: Flag)
    requires IsText(flag)
    ensures TextIn(With(f, item), flag) == if Sets(item, flag) then item.argument else TextIn(f, flag)
  {
  }

  /** Settings given more than once go by the last argument. */
  lemma {:induction false} LastArgumentCounts(items: seq<Item>, flag: Flag)
    requires IsText(flag)
    ensures LastGiven(items, flag, TextIn(Fold(NO_FIELDS, items), flag))
  {
    if items != [] {
      var init, last := items[..|items| - 1], items[|items| - 1];
      assert items == init + [last];
      LastArgumentCounts(init, flag);
      FoldSnoc(NO_FIELDS, init, last);
      WithSets(Fold(NO_FIELDS, init), last, flag);
      LastGivenSnoc(init, last, flag, TextIn(Fold(NO_FIELDS, init), flag));
    }
  }

  /** A switch is on when it occurs. */
  lemma {:induction false} SwitchesCount(items: seq<Item>)
    ensures Fold(NO_FIELDS, items).excludeDefaultGroup <==> Switch(ExcludeFlag) in items
    ensures Fold(NO_FIELDS, items).fallback <==> Switch(FallbackFlag) in items
  {
    if items != [] {
      var init, last := items[..|items| - 1], items[|items| - 1];
      assert items == init + [last];
      SwitchesCount(init);
      FoldSnoc(NO_FIELDS, init, last);
    }
  }

  // ---------- What the parser produces ----------

  predicate Argument(s: string) {
    s == "" || IsWord(s)
  }

  /** Unrecognised tokens that read back as unrecognised: no switch, and a flag that wants an
      argument only at the very end, where it dangles. */
  predicate Settled(tokens: seq<string>) {
    forall i :: 0 <= i < |tokens| ==>
      IsWord(tokens[i]) && FlagOf(tokens[i]) != ExcludeFlag && FlagOf(tokens[i]) != FallbackFlag &&
      (TakesArgument(FlagOf(tokens[i])) ==> i == |tokens| - 1)
  }

  predicate AllWords(tokens: seq<string>) {
    forall t :: t in tokens ==> IsWord(t)
  }

  predicate Arguments(f: Fields) {
    AllWords(f.groups) && Argument(f.proxyName) && Argument(f.bootstrapDns) && Argument(f.hostIp) && Argument(f.subnet)
  }

  predicate WellFormed(f: Fields) {
    Arguments(f) && Settled(f.passthrough)
  }

  lemma SettledCons(token: string, rest: seq<string>)
    requires IsWord(token) && FlagOf(token) != ExcludeFlag && FlagOf(token) != FallbackFlag
    requires TakesArgument(FlagOf(token)) ==> rest == []
    requires Settled(rest)
    ensures Settled([token] + rest)
  {
  }

  lemma {:induction false} PlainInIsSettled(tokens: seq<string>)
    requires AllWords(tokens)
    ensures Settled(PlainIn(Items(tokens)))
    decreases tokens
  {
    if tokens != [] {
      var flag, items := FlagOf(tokens[0]), Items(tokens);
      assert tokens[0] in tokens;
      if TakesArgument(flag) && |tokens| > 1 {
        assert items[1..] == Items(tokens[2..]);
        PlainInIsSettled(tokens[2..]);
        assert PlainIn(items) == [] + PlainIn(Items(tokens[2..]));
      } else if flag.ExcludeFlag? || flag.FallbackFlag? {
        assert items[1..] == Items(tokens[1..]);
        PlainInIsSettled(tokens[1..]);
        assert PlainIn(items) == [] + PlainIn(Items(tokens[1..]));
      } else if |tokens| > 1 && !StartsWith(tokens[1], '-') {
        assert tokens[1] in tokens;
        assert items[1..] == [Plain(tokens[1])] + Items(tokens[2..]);
        assert items[1..][1..] == Items(tokens[2..]);
        var rest := PlainIn(Items(tokens[2..]));
        PlainInIsSettled(tokens[2..]);
        FlagsAreDashed(tokens[1]);
        SettledCons(tokens[1], rest);
        SettledCons(tokens[0], [tokens[1]] + rest);
        assert PlainIn(items) == [tokens[0]] + ([tokens[1]] + rest);
      } else {
        assert items[1..] == Items(tokens[1..]);
        PlainInIsSettled(tokens[1..]);
        SettledCons(tokens[0], PlainIn(Items(tokens[1..])));
      }
    }
  }

  predicate WordItem(item: Item) {
    match item
    case Switch(_) => true
    case Setting(_, argument) => IsWord(argument)
    case Plain(token) => IsWord(token)
  }

  lemma {:induction false} ItemsAreWords(tokens: seq<string>)
    requires AllWords(tokens)
    ensures forall item :: item in Items(tokens) ==> WordItem(item)
    decreases tokens
  {
    if tokens != [] {
      assert tokens[0] in tokens && (|tokens| > 1 ==> tokens[1] in tokens);
      ItemsAreWords(tokens[1..]);
      if |tokens| > 1 {
        ItemsAreWords(tokens[2..]);
      }
    }
  }

  lemma WithKeepsWords(f: Fields, item: Item)
    requires Arguments(f) && WordItem(item)
    ensures Arguments(With(f, item))
  {
    if item.Setting? && item.flag == GroupFlag {
      assert AllWords(f.groups + [item.argument]);
    } else {
      assert With(f, item).groups == f.groups;
    }
  }

  lemma {:induction false} FoldKeepsWords(f: Fields, items: seq<Item>)
    requires Arguments(f) && forall item :: item in items ==> WordItem(item)
    ensures Arguments(Fold(f, items))
    decreases items
  {
    if items != [] {
      assert items[0] in items;
      WithKeepsWords(f, items[0]);
      FoldKeepsWords(With(f, items[0]), items[1..]);
    }
  }

  lemma ParsedIsWellFormed(tokens: seq<string>)
    requires AllWords(tokens)
    ensures WellFormed(FieldsOf(tokens))
  {
    ItemsAreWords(tokens);
    FoldKeepsWords(NO_FIELDS, Items(tokens));
    FoldKeepsOrder(NO_FIELDS, Items(tokens));
    PlainInIsSettled(tokens);
    assert [] + PlainIn(Items(tokens)) == PlainIn(Items(tokens));
  }

  // ---------- Rendering ----------

  function GroupParts(groups: seq<string>): seq<string> {
    if groups == [] then []
    else SettingPart(GroupFlag, groups[0]) + GroupParts(groups[1..])
  }

  function SettingPart(flag: Flag, value: string): seq<string> {
    if Trim(value) == "" then [] else [Spelling(flag) + " " + Trim(value)]
  }

  function SwitchPart(flag: Flag, on: bool): seq<string> {
    if on then [Spelling(flag)] else []
  }

  function OptionParts(u: Upstream): seq<string> {
    GroupParts(u.groups) + SwitchPart(ExcludeFlag, u.excludeDefaultGroup) +
    SettingPart(ProxyFlag, u.proxyName) + SettingPart(BootstrapFlag, u.bootstrapDns) +
    SettingPart(HostIpFlag, u.hostIp) + SettingPart(SubnetFlag, u.subnet) +
    SwitchPart(FallbackFlag, u.fallback) + (if Trim(u.options) == "" then [] else [Trim(u.options)])
  }

  function RenderOptions(u: Upstream): string {
    Join(OptionParts(u), " ")
  }

  /** The words the rendered options consist of. */
  function GroupTokens(groups: seq<string>): seq<string> {
    if groups == [] then [] else SettingTokens(GroupFlag, groups[0]) + GroupTokens(groups[1..])
  }

  function SettingTokens(flag: Flag, value: string): seq<string> {
    if value == "" then [] else [Spelling(flag), value]
  }

  function Tokens(f: Fields): seq<string> {
    GroupTokens(f.groups) + (SwitchPart(ExcludeFlag, f.excludeDefaultGroup) +
    (SettingTokens(ProxyFlag, f.proxyName) + (SettingTokens(BootstrapFlag, f.bootstrapDns) +
    (SettingTokens(HostIpFlag, f.hostIp) + (SettingTokens(SubnetFlag, f.subnet) +
    (SwitchPart(FallbackFlag, f.fallback) + f.passthrough))))))
  }

  lemma SettledTail(tokens: seq<string>, k: nat)
    requires Settled(tokens) && k <= |tokens|
    ensures Settled(tokens[k..])
  {
  }

  lemma {:induction false} SettledItems(tokens: seq<string>, f: Fields)
    requires Settled(tokens)
    ensures Fold(f, Items(tokens)) == f.(passthrough := f.passthrough + tokens)
    decreases tokens
  {
    if tokens != [] {
      ItemsStep(tokens, f);
      if |tokens| > 1 && !StartsWith(tokens[1], '-') {
        SettledTail(tokens, 2);
        SettledItems(tokens[2..], With(With(f, Plain(tokens[0])), Plain(tokens[1])));
        PassedOn(f, tokens, 2);
      } else {
        SettledTail(tokens, 1);
        SettledItems(tokens[1..], With(f, Plain(tokens[0])));
        PassedOn(f, tokens, 1);
      }
    }
  }

  lemma PassedOn(f: Fields, tokens: seq<string>, n: nat)
    requires 1 <= n <= 2 && n <= |tokens|
    ensures f.passthrough + [tokens[0]] + (if n == 2 then [tokens[1]] else []) + tokens[n..] == f.passthrough + tokens
    ensures n == 1 ==> f.passthrough + [tokens[0]] + tokens[1..] == f.passthrough + tokens
  {
  }

  // ---------- Reading rendered options ----------

  lemma ReadSetting(flag: Flag, value: string, rest: seq<string>, f: Fields)
    requires TakesArgument(flag) && value != ""
    ensures Fold(f, Items(SettingTokens(flag, value) + rest)) == Fold(With(f, Setting(flag, value)), Items(rest))
  {
    var tokens := SettingTokens(flag, value) + rest;
    SpellingsRead(flag);
    ItemsStep(tokens, f);
    assert tokens[2..] == rest;
  }

  lemma ReadSwitch(flag: Flag, rest: seq<string>, f: Fields)
    requires flag == ExcludeFlag || flag == FallbackFlag
    ensures Fold(f, Items([Spelling(flag)] + rest)) == Fold(With(f, Switch(flag)), Items(rest))
  {
    var tokens := [Spelling(flag)] + rest;
    SpellingsRead(flag);
    ItemsStep(tokens, f);
    assert tokens[1..] == rest;
  }

  lemma {:induction false} ReadGroups(groups: seq<string>, rest: seq<string>, f: Fields)
    requires AllWords(groups)
    ensures Fold(f, Items(GroupTokens(groups) + rest)) == Fold(f.(groups := f.groups + groups), Items(rest))
    decreases groups
  {
    if groups == [] {
      assert [] + rest == rest && f.groups + [] == f.groups;
    } else {
      assert groups[0] in groups;
      var later := GroupTokens(groups[1..]) + rest;
      Reassociate(SettingTokens(GroupFlag, groups[0]), GroupTokens(groups[1..]), rest);
      ReadSetting(GroupFlag, groups[0], later, f);
      ReadGroups(groups[1..], rest, f.(groups := f.groups + [groups[0]]));
      Reassociate(f.groups, [groups[0]], groups[1..]);
      assert [groups[0]] + groups[1..] == groups;
    }
  }

  lemma ReadOptional(flag: Flag, value: string, rest: seq<string>, f: Fields)
    requires TakesArgument(flag)
    ensures Fold(f, Items(SettingTokens(flag, value) + rest)) ==
            Fold(if value == "" then f else With(f, Setting(flag, value)), Items(rest))
  {
    if value == "" {
      assert [] + rest == rest;
    } else {
      ReadSetting(flag, value, rest, f);
    }
  }

  lemma ReadOptionalSwitch(flag: Flag, on: bool, rest: seq<string>, f: Fields)
    requires flag == ExcludeFlag || flag == FallbackFlag
    ensures Fold(f, Items(SwitchPart(flag, on) + rest)) == Fold(if on then With(f, Switch(flag)) else f, Items(rest))
  {
    if on {
      ReadSwitch(flag, rest, f);
    } else {
      assert [] + rest == rest;
    }
  }

  /** The tokens of well-formed fields read back as these fields. */
  lemma ReadTokens(f: Fields)
    requires WellFormed(f)
    ensures FieldsOf(Tokens(f)) == f
  {
    var t7 := f.passthrough;
    var t6 := SwitchPart(FallbackFlag, f.fallback) + t7;
    var t5 := SettingTokens(SubnetFlag, f.subnet) + t6;
    var t4 := SettingTokens(HostIpFlag, f.hostIp) + t5;
    var t3 := SettingTokens(BootstrapFlag, f.bootstrapDns) + t4;
    var t2 := SettingTokens(ProxyFlag, f.proxyName) + t3;
    var t1 := SwitchPart(ExcludeFlag, f.excludeDefaultGroup) + t2;
    var g1 := NO_FIELDS.(groups := NO_FIELDS.groups + f.groups);
    ReadGroups(f.groups, t1, NO_FIELDS);
    var g2 := g1.(excludeDefaultGroup := f.excludeDefaultGroup);
    ReadOptionalSwitch(ExcludeFlag, f.excludeDefaultGroup, t2, g1);
    var g3 := g2.(proxyName := f.proxyName);
    ReadOptional(ProxyFlag, f.proxyName, t3, g2);
    var g4 := g3.(bootstrapDns := f.bootstrapDns);
    ReadOptional(BootstrapFlag, f.bootstrapDns, t4, g3);
    var g5 := g4.(hostIp := f.hostIp);
    ReadOptional(HostIpFlag, f.hostIp, t5, g4);
    var g6 := g5.(subnet := f.subnet);
    ReadOptional(SubnetFlag, f.subnet, t6, g5);
    var g7 := g6.(fallback := f.fallback);
    ReadOptionalSwitch(FallbackFlag, f.fallback, t7, g6);
    SettledItems(t7, g7);
    assert [] + f.groups == f.groups && [] + f.passthrough == f.passthrough;
  }

  // ---------- Rendered text has these words ----------

  lemma WordsOfWord(w: string)
    requires IsWord(w)
    ensures Words(w) == [w] && Trim(w) == w
  {
    WordIsTight(w);
    assert w + "" == w;
    WordsCons(w, "");
  }

  lemma WordsOfSetting(flag: Flag, value: string)
    requires flag != NoFlag && Argument(value)
    ensures WordsOfAll(SettingPart(flag, value)) == SettingTokens(flag, value)
  {
    if value != "" {
      WordsOfWord(value);
      SpellingsAreWords(flag);
      WordsOfWord(Spelling(flag));
      WordsSplit(Spelling(flag), ' ', value);
      assert SettingPart(flag, value)[1..] == [];
    }
  }

  lemma WordsOfSwitch(flag: Flag, on: bool)
    requires flag != NoFlag
    ensures WordsOfAll(SwitchPart(flag, on)) == SwitchPart(flag, on)
  {
    SpellingsAreWords(flag);
    WordsOfWord(Spelling(flag));
    if on {
      assert SwitchPart(flag, on)[1..] == [];
    }
  }

  lemma {:induction false} WordsOfAllAppend(a: seq<string>, b: seq<string>)
    ensures WordsOfAll(a + b) == WordsOfAll(a) + WordsOfAll(b)
  {
    if a == [] {
      assert a + b == b;
    } else {
      assert (a + b)[1..] == a[1..] + b;
      WordsOfAllAppend(a[1..], b);
    }
  }

  lemma {:induction false} WordsOfGroups(groups: seq<string>)
    requires AllWords(groups)
    ensures WordsOfAll(GroupParts(groups)) == GroupTokens(groups)
  {
    if groups != [] {
      assert groups[0] in groups;
      WordsOfSetting(GroupFlag, groups[0]);
      WordsOfGroups(groups[1..]);
      WordsOfAllAppend(SettingPart(GroupFlag, groups[0]), GroupParts(groups[1..]));
    }
  }

  lemma SettledAreWords(tokens: seq<string>)
    requires Settled(tokens)
    ensures forall t :: t in tokens ==> IsWord(t)
  {
  }

  lemma WordsOfPassthrough(tokens: seq<string>)
    requires Settled(tokens)
    ensures var text := Join(tokens, " ");
            WordsOfAll(if Trim(text) == "" then [] else [Trim(text)]) == tokens
  {
    var text := Join(tokens, " ");
    SettledAreWords(tokens);
    WordsOfJoin(tokens);
    JoinIsTight(tokens);
    TrimOfTight(text);
    assert [text][1..] == [];
  }

  predicate Carries(u: Upstream, f: Fields) {
    u.groups == f.groups && u.excludeDefaultGroup == f.excludeDefaultGroup && u.proxyName == f.proxyName &&
    u.bootstrapDns == f.bootstrapDns && u.hostIp == f.hostIp && u.subnet == f.subnet &&
    u.fallback == f.fallback && u.options == Join(f.passthrough, " ")
  }

  lemma RenderedWords(u: Upstream, f: Fields)
    requires Carries(u, f) && WellFormed(f)
    ensures Words(RenderOptions(u)) == Tokens(f)
  {
    var p1, p2 := GroupParts(u.groups), SwitchPart(ExcludeFlag, u.excludeDefaultGroup);
    var p3 := SettingPart(ProxyFlag, u.proxyName);
    var p4, p5 := SettingPart(BootstrapFlag, u.bootstrapDns), SettingPart(HostIpFlag, u.hostIp);
    var p6, p7 := SettingPart(SubnetFlag, u.subnet), SwitchPart(FallbackFlag, u.fallback);
    var p8 := if Trim(u.options) == "" then [] else [Trim(u.options)];
    WordsOfJoinAppend(OptionParts(u));
    WordsOfAllAppend(p1 + p2 + p3 + p4 + p5 + p6 + p7, p8);
    WordsOfAllAppend(p1 + p2 + p3 + p4 + p5 + p6, p7);
    WordsOfAllAppend(p1 + p2 + p3 + p4 + p5, p6);
    WordsOfAllAppend(p1 + p2 + p3 + p4, p5);
    WordsOfAllAppend(p1 + p2 + p3, p4);
    WordsOfAllAppend(p1 + p2, p3);
    WordsOfAllAppend(p1, p2);
    WordsOfGroups(f.groups);
    WordsOfSwitch(ExcludeFlag, f.excludeDefaultGroup);
    WordsOfSetting(ProxyFlag, f.proxyName);
    WordsOfSetting(BootstrapFlag, f.bootstrapDns);
    WordsOfSetting(HostIpFlag, f.hostIp);
    WordsOfSetting(SubnetFlag, f.subnet);
    WordsOfSwitch(FallbackFlag, f.fallback);
    WordsOfPassthrough(f.passthrough);
    EightParts(GroupTokens(f.groups), p2, SettingTokens(ProxyFlag, f.proxyName),
               SettingTokens(BootstrapFlag, f.bootstrapDns), SettingTokens(HostIpFlag, f.hostIp),
               SettingTokens(SubnetFlag, f.subnet), p7, f.passthrough);
  }

  lemma EightParts(a: seq<string>, b: seq<string>, c: seq<string>, d: seq<string>, e: seq<string>, f: seq<string>,
                   g: seq<string>, h: seq<string>)
    ensures a + b + c + d + e + f + g + h == a + (b + (c + (d + (e + (f + (g + h))))))
  {
  }

  /** An upstream that carries well-formed fields reads back from its rendered options. */
  lemma RenderedReadsBack(kind: string, value: string, u: Upstream, f: Fields)
    requires Carries(u, f) && WellFormed(f)
    ensures ParseUpstream(kind, value, RenderOptions(u)) == u.(kind := kind, value := value, note := "")
  {
    RenderedWords(u, f);
    ReadTokens(f);
  }

  /** For every option string, dangling, repeated and unknown options included: parsing, rendering
      and parsing again gives what the first parse gave. */
  lemma OptionsNormalForm(kind: string, value: string, options: string)
    ensures var u := ParseUpstream(kind, value, options);
            ParseUpstream(kind, value, RenderOptions(u)) == u
  {
    WordsAreWords(options);
    ParsedIsWellFormed(Words(options));
    RenderedReadsBack(kind, value, ParseUpstream(kind, value, options), FieldsOf(Words(options)));
  }

  /** Groups and unrecognised tokens keep their order in the option string. */
  lemma OptionsKeepOrder(kind: string, value: string, options: string)
    ensures var u, items := ParseUpstream(kind, value, options), Items(Words(options));
            && u.groups == GroupsIn(items) && u.options == Join(PlainIn(items), " ")
            && SameTokens(Spelled(items), Words(options))
  {
    var items := Items(Words(options));
    ItemsSpellTokens(Words(options));
    FoldKeepsOrder(NO_FIELDS, items);
    assert [] + GroupsIn(items) == GroupsIn(items) && [] + PlainIn(items) == PlainIn(items);
  }
}
