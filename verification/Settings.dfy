/** What the general parser makes of a list of directives, key by key. */
module Settings {
  import opened Common
  import opened Text
  import opened ConfigLines
  import opened UpstreamOptions
  import opened UpstreamFile

  function ValuesOf(ds: seq<Directive>, key: string): seq<string> {
    if ds == [] then []
    else
      var last := ds[|ds| - 1];
      ValuesOf(ds[..|ds| - 1], key) + if last.key == key then [last.value] else []
  }

  function LastOr(values: seq<string>, default: string): string {
    if values == [] then default else values[|values| - 1]
  }

  /** The texts are equal but for the case of ASCII letters. */
  predicate SameLetters(a: string, b: string) {
    |a| == |b| && forall i :: 0 <= i < |a| ==> SameLetter(a[i], b[i])
  }

  predicate SameLetter(x: char, y: char) {
    x == y || ('A' <= x <= 'Z' && 'a' <= y <= 'z' && y as int == x as int + 32) ||
    ('a' <= x <= 'z' && 'A' <= y <= 'Z' && x as int == y as int + 32)
  }

  predicate SaysYes(v: string) {
    SameLetters(v, "yes") || SameLetters(v, "true") || v == "1"
  }

  predicate SaysNo(v: string) {
    SameLetters(v, "no") || SameLetters(v, "false") || v == "0"
  }

  lemma LowerIs(s: string, word: string)
    requires forall c :: c in word ==> 'a' <= c <= 'z'
    ensures LowerAscii(s) == word <==> SameLetters(s, word)
  {
    if LowerAscii(s) == word {
      assert |LowerAscii(s)| == |s|;
      forall i | 0 <= i < |s| ensures SameLetter(s[i], word[i]) {
        assert LowerAscii(s)[i] == word[i] && word[i] in word;
      }
    }
    if SameLetters(s, word) {
      forall i | 0 <= i < |s| ensures LowerAscii(s)[i] == word[i] {
        assert word[i] in word && SameLetter(s[i], word[i]);
      }
    }
  }

  /** Yes and no in any case, one and zero; everything else is the default. */
  lemma YesNoReads(v: string, default: bool)
    ensures ParseYesNo(v, default) == if SaysYes(v) then true else if SaysNo(v) then false else default
  {
    LowerIs(v, "yes");
    LowerIs(v, "true");
    LowerIs(v, "no");
    LowerIs(v, "false");
  }

  function LastFlag(values: seq<string>, start: bool, default: bool): bool {
    if values == [] then start
    else
      var v := values[|values| - 1];
      if SaysYes(v) then true else if SaysNo(v) then false else default
  }

  // ---------- One more directive ----------

  lemma {:induction false} ApplyAllSnoc(c: BeginnerConfig, ds: seq<Directive>, d: Directive)
    ensures ApplyAll(c, ds + [d]) == Apply(ApplyAll(c, ds), d)
    decreases ds
  {
    if ds == [] {
      assert [d][1..] == [] && [] + [d] == [d];
    } else {
      assert (ds + [d])[1..] == ds[1..] + [d];
      ApplyAllSnoc(Apply(c, ds[0]), ds[1..], d);
    }
  }

  lemma ValuesSnoc(ds: seq<Directive>, d: Directive, key: string)
    ensures ValuesOf(ds + [d], key) == ValuesOf(ds, key) + if d.key == key then [d.value] else []
  {
    assert (ds + [d])[..|ds|] == ds;
  }

  // ---------- Settings ----------

  function NameOf(s: Setting): string {
    match s
    case ServerName => "server-name"
    case Binding => "bind"
    case CacheSize => "cache-size"
    case PrefetchDomain => "prefetch-domain"
    case ServeExpired => "serve-expired"
    case ServeExpiredTtl => "serve-expired-ttl"
    case ResponseMode => "response-mode"
    case SpeedCheckMode => "speed-check-mode"
    case DualstackIpSelection => "dualstack-ip-selection"
    case LogLevel => "log-level"
    case MdnsLookup => "mdns-lookup"
    case AuditEnable => "audit-enable"
    case Extra => ""
  }

  lemma NamesAreSettings(s: Setting)
    requires s != Extra
    ensures SettingOf(NameOf(s)) == s
  {
    assert "server-name"[0] != "mdns-lookup"[0] && "serve-expired"[0] != "response-mode"[0];
  }

  lemma SettingsHaveNames(key: string)
    ensures SettingOf(key) != Extra ==> NameOf(SettingOf(key)) == key
  {
  }

  /** The values of each setting, in order. */
  type Values = Setting -> seq<string>

  function Given(ds: seq<Directive>): Values {
    s => ValuesOf(ds, NameOf(s))
  }

  ghost predicate OneMore(before: Values, kind: Setting, value: string, after: Values) {
    forall s :: s != Extra ==> after(s) == if kind == s then before(s) + [value] else before(s)
  }

  lemma GivenSnoc(ds: seq<Directive>, d: Directive)
    ensures OneMore(Given(ds), SettingOf(d.key), d.value, Given(ds + [d]))
  {
    forall s | s != Extra
      ensures Given(ds + [d])(s) == if SettingOf(d.key) == s then Given(ds)(s) + [d.value] else Given(ds)(s)
    {
      assert Given(ds)(s) + [] == Given(ds)(s);
      ValuesSnoc(ds, d, NameOf(s));
      NamesAreSettings(s);
      SettingsHaveNames(d.key);
    }
  }

  /** Text settings have the value of the last directive with their key, or their default. */
  predicate TextsRead(c: BeginnerConfig, given: Values) {
    && c.serverName == LastOr(given(ServerName), "")
    && c.cacheSize == LastOr(given(CacheSize), "32768")
    && c.logLevel == LastOr(given(LogLevel), "info")
    && c.serveExpiredTtl == LastOr(given(ServeExpiredTtl), "86400")
    && c.binds == given(Binding)
  }

  predicate ModesRead(c: BeginnerConfig, given: Values) {
    && c.responseMode == LastOr(given(ResponseMode), "first-ping")
    && c.dualstackIpSelection == LastFlag(given(DualstackIpSelection), true, true)
    && c.speedCheckMode == LastOr(given(SpeedCheckMode), "ping,tcp:80,tcp:443")
  }

  /** Switches go by the last directive with their key. */
  predicate FlagsRead(c: BeginnerConfig, given: Values) {
    && c.prefetchDomain == LastFlag(given(PrefetchDomain), true, true)
    && c.serveExpired == LastFlag(given(ServeExpired), true, true)
  }

  predicate SwitchesRead(c: BeginnerConfig, given: Values) {
    && c.mdnsLookup == LastFlag(given(MdnsLookup), false, false)
    && c.auditEnable == LastFlag(given(AuditEnable), false, false)
  }

  function Nonempty(values: seq<string>): seq<string> {
    if values == [] then []
    else
      var last := values[|values| - 1];
      Nonempty(values[..|values| - 1]) + if last == "" then [] else [last]
  }

  /** Every other key: the last value that is not empty, or for the keys that may be repeated all such
      values, one on a line. Keys of settings and servers are never among the extras. */
  predicate ExtraReads(c: BeginnerConfig, ds: seq<Directive>, key: string) {
    Held(c.extras, key, IsExtraKey(key), IsListKey(key), Nonempty(ValuesOf(ds, key)))
  }

  predicate Held(extras: map<string, string>, key: string, kept: bool, list: bool, values: seq<string>) {
    if !kept || values == [] then key !in extras
    else key in extras && extras[key] == if list then Join(values, "\n") else values[|values| - 1]
  }

  /** A text setting follows the last value. */
  lemma TextFollows(before: Values, kind: Setting, value: string, after: Values, s: Setting, default: string)
    requires OneMore(before, kind, value, after) && s != Extra
    ensures LastOr(after(s), default) == if kind == s then value else LastOr(before(s), default)
  {
  }

  lemma FlagFollows(before: Values, kind: Setting, value: string, after: Values, s: Setting, default: bool)
    requires OneMore(before, kind, value, after) && s != Extra
    ensures LastFlag(after(s), default, default) ==
            if kind == s then ParseYesNo(value, default) else LastFlag(before(s), default, default)
  {
    YesNoReads(value, default);
  }

  lemma TextStep(c: BeginnerConfig, before: Values, kind: Setting, key: string, value: string, after: Values)
    requires TextsRead(c, before) && OneMore(before, kind, value, after)
    ensures TextsRead(Put(c, kind, key, value), after)
  {
    TextFollows(before, kind, value, after, ServerName, "");
    TextFollows(before, kind, value, after, CacheSize, "32768");
    TextFollows(before, kind, value, after, LogLevel, "info");
    TextFollows(before, kind, value, after, ServeExpiredTtl, "86400");
  }

  lemma ModeStep(c: BeginnerConfig, before: Values, kind: Setting, key: string, value: string, after: Values)
    requires ModesRead(c, before) && OneMore(before, kind, value, after)
    ensures ModesRead(Put(c, kind, key, value), after)
  {
    TextFollows(before, kind, value, after, ResponseMode, "first-ping");
    TextFollows(before, kind, value, after, SpeedCheckMode, "ping,tcp:80,tcp:443");
    FlagFollows(before, kind, value, after, DualstackIpSelection, true);
  }

  lemma FlagStep(c: BeginnerConfig, before: Values, kind: Setting, key: string, value: string, after: Values)
    requires FlagsRead(c, before) && OneMore(before, kind, value, after)
    ensures FlagsRead(Put(c, kind, key, value), after)
  {
    FlagFollows(before, kind, value, after, PrefetchDomain, true);
    FlagFollows(before, kind, value, after, ServeExpired, true);
  }

  lemma SwitchStep(c: BeginnerConfig, before: Values, kind: Setting, key: string, value: string, after: Values)
    requires SwitchesRead(c, before) && OneMore(before, kind, value, after)
    ensures SwitchesRead(Put(c, kind, key, value), after)
  {
    FlagFollows(before, kind, value, after, MdnsLookup, false);
    FlagFollows(before, kind, value, after, AuditEnable, false);
  }

  // ---------- Extras ----------

  lemma NonemptySnoc(values: seq<string>, value: string)
    ensures Nonempty(values + [value]) == Nonempty(values) + if value == "" then [] else [value]
  {
    assert (values + [value])[..|values|] == values;
  }

  lemma {:induction false} NonemptyIs(values: seq<string>)
    ensures forall v :: v in Nonempty(values) ==> v != ""
  {
    if values != [] {
      NonemptyIs(values[..|values| - 1]);
    }
  }

  lemma {:induction false} JoinSnocWith(parts: seq<string>, last: string, separator: string)
    requires parts != []
    ensures Join(parts + [last], separator) == Join(parts, separator) + separator + last
  {
    assert (parts + [last])[1..] == parts[1..] + [last];
    if |parts| == 1 {
      assert parts[1..] == [] && [last][1..] == [];
    } else {
      JoinSnocWith(parts[1..], last, separator);
      assert parts[0] + separator + (Join(parts[1..], separator) + separator + last) ==
             parts[0] + separator + Join(parts[1..], separator) + separator + last;
    }
  }

  lemma {:induction false} JoinedIsNonempty(parts: seq<string>, separator: string)
    requires parts != [] && parts[0] != ""
    ensures Join(parts, separator) != ""
  {
  }

  lemma ListedStep(extras: map<string, string>, values: seq<string>, key: string, value: string)
    requires (forall v :: v in values ==> v != "") && value != ""
    requires if values == [] then key !in extras else key in extras && extras[key] == Join(values, "\n")
    ensures Listed(extras, key, value)[key] == Join(values + [value], "\n")
  {
    if values == [] {
      assert [] + [value] == [value];
    } else {
      assert values[0] in values;
      JoinedIsNonempty(values, "\n");
      JoinSnocWith(values, value, "\n");
    }
  }

  predicate IsExtraKey(key: string) {
    !IsServerKey(key) && SettingOf(key) == Extra
  }

  lemma ApplyExtras(c: BeginnerConfig, d: Directive)
    ensures Apply(c, d).extras ==
            if !IsExtraKey(d.key) || d.value == "" then c.extras
            else if IsListKey(d.key) then Listed(c.extras, d.key, d.value)
            else c.extras[d.key := d.value]
  {
    if !IsServerKey(d.key) {
      PutExtras(c, SettingOf(d.key), d.key, d.value);
    }
  }

  lemma PutExtras(c: BeginnerConfig, s: Setting, key: string, value: string)
    ensures Put(c, s, key, value).extras ==
            if s != Extra || value == "" then c.extras
            else if IsListKey(key) then Listed(c.extras, key, value)
            else c.extras[key := value]
  {
  }

  lemma ExtraStep(c: BeginnerConfig, ds: seq<Directive>, d: Directive, key: string)
    requires ExtraReads(c, ds, key)
    ensures ExtraReads(Apply(c, d), ds + [d], key)
  {
    var values := ValuesOf(ds, key);
    ApplyExtras(c, d);
    ValuesSnoc(ds, d, key);
    if d.key == key {
      NonemptySnoc(values, d.value);
      NonemptyIs(values);
      OwnExtraStep(c.extras, Apply(c, d).extras, key, IsExtraKey(key), IsListKey(key), Nonempty(values), d.value);
    } else {
      assert values + [] == values;
      OthersStay(c.extras, d, key);
    }
  }

  lemma OthersStay(extras: map<string, string>, d: Directive, key: string)
    requires d.key != key
    ensures key in Listed(extras, d.key, d.value) <==> key in extras
    ensures key in extras ==> Listed(extras, d.key, d.value)[key] == extras[key]
  {
  }

  lemma OwnExtraStep(extras: map<string, string>, next: map<string, string>, key: string, kept: bool, list: bool,
                     values: seq<string>, value: string)
    requires (forall v :: v in values ==> v != "") && Held(extras, key, kept, list, values)
    requires next == if !kept || value == "" then extras
                     else if list then Listed(extras, key, value) else extras[key := value]
    ensures Held(next, key, kept, list, values + if value == "" then [] else [value])
  {
    assert values + [] == values;
    if kept && value != "" && list {
      ListedStep(extras, values, key, value);
    }
  }

  // ---------- All of them ----------

  lemma DefaultsRead()
    ensures TextsRead(DEFAULTS, Given([])) && ModesRead(DEFAULTS, Given([]))
    ensures FlagsRead(DEFAULTS, Given([])) && SwitchesRead(DEFAULTS, Given([]))
    ensures forall key :: ExtraReads(DEFAULTS, [], key)
  {
  }

  /** For every list of directives and every setting: the last directive with its key decides, all binds
      are kept in order, and all other keys are extras. */
  lemma {:induction false} SettingsRead(ds: seq<Directive>)
    ensures var c := ApplyAll(DEFAULTS, ds);
            && TextsRead(c, Given(ds)) && ModesRead(c, Given(ds))
            && FlagsRead(c, Given(ds)) && SwitchesRead(c, Given(ds))
            && forall key :: ExtraReads(c, ds, key)
  {
    if ds == [] {
      DefaultsRead();
    } else {
      var init, d := ds[..|ds| - 1], ds[|ds| - 1];
      assert init + [d] == ds;
      SettingsRead(init);
      ApplyAllSnoc(DEFAULTS, init, d);
      OneMoreReads(ApplyAll(DEFAULTS, init), init, d);
    }
  }

  lemma OneMoreReads(c: BeginnerConfig, init: seq<Directive>, d: Directive)
    requires TextsRead(c, Given(init)) && ModesRead(c, Given(init))
    requires FlagsRead(c, Given(init)) && SwitchesRead(c, Given(init)) && forall key :: ExtraReads(c, init, key)
    ensures var next, ds := Apply(c, d), init + [d];
            && TextsRead(next, Given(ds)) && ModesRead(next, Given(ds))
            && FlagsRead(next, Given(ds)) && SwitchesRead(next, Given(ds))
            && forall key :: ExtraReads(next, ds, key)
  {
    forall key ensures ExtraReads(Apply(c, d), init + [d], key) {
      ExtraStep(c, init, d, key);
    }
    SettingStep(c, init, d);
  }

  lemma SettingStep(c: BeginnerConfig, init: seq<Directive>, d: Directive)
    requires TextsRead(c, Given(init)) && ModesRead(c, Given(init))
    requires FlagsRead(c, Given(init)) && SwitchesRead(c, Given(init))
    ensures var next, ds := Apply(c, d), init + [d];
            && TextsRead(next, Given(ds)) && ModesRead(next, Given(ds))
            && FlagsRead(next, Given(ds)) && SwitchesRead(next, Given(ds))
  {
    var kind, before, after := SettingOf(d.key), Given(init), Given(init + [d]);
    GivenSnoc(init, d);
    if IsServerKey(d.key) {
      ServersAreNoSettings(d.key);
    }
    TextStep(c, before, kind, d.key, d.value, after);
    ModeStep(c, before, kind, d.key, d.value, after);
    FlagStep(c, before, kind, d.key, d.value, after);
    SwitchStep(c, before, kind, d.key, d.value, after);
  }

  lemma ServersAreNoSettings(key: string)
    requires IsServerKey(key)
    ensures SettingOf(key) == Extra
  {
    SettingsHaveNames(key);
  }
}
