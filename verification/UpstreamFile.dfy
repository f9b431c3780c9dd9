/** The file of upstream servers: rendered by groups, read back by the general configuration parser. */
module UpstreamFile {
  import opened Common
  import opened Text
  import opened ConfigLines
  import opened UpstreamOptions

  // ---------- The general parser ----------

  datatype BeginnerConfig = BeginnerConfig(
    serverName: string, binds: seq<string>, cacheSize: string, prefetchDomain: bool, serveExpired: bool,
    serveExpiredTtl: string, responseMode: string, speedCheckMode: string, dualstackIpSelection: bool,
    logLevel: string, mdnsLookup: bool, auditEnable: bool, upstreams: seq<Upstream>, extras: map<string, string>)

  const DEFAULTS := BeginnerConfig(
    "", [], "32768", true, true, "86400", "first-ping", "ping,tcp:80,tcp:443", true, "info", false, false, [], map[])

  function LowerAscii(s: string): string {
    seq(|s|, i requires 0 <= i < |s| => if 'A' <= s[i] <= 'Z' then ((s[i] as int) + 32) as char else s[i])
  }

  function ParseYesNo(value: string, defaultValue: bool): bool {
    if LowerAscii(value) == "yes" || LowerAscii(value) == "true" || value == "1" then true
    else if LowerAscii(value) == "no" || LowerAscii(value) == "false" || value == "0" then false
    else defaultValue
  }

  predicate IsServerKey(key: string) {
    key == "server" || key == "server-tcp" || key == "server-tls" || key == "server-https" ||
    key == "server-quic" || key == "server-http3" || key == "server-h3"
  }

  predicate IsListKey(key: string) {
    key == "bind-tcp" || key == "bind-tls" || key == "bind-https" || key == "conf-file"
  }

  function Listed(extras: map<string, string>, key: string, value: string): map<string, string> {
    if key !in extras then extras[key := value]
    else extras[key := extras[key] + (if extras[key] == "" then "" else "\n") + value]
  }

  function Apply(c: BeginnerConfig, d: Directive): BeginnerConfig {
    if IsServerKey(d.key) then
      c.(upstreams := c.upstreams + [ParseUpstream(d.key, KeyOf(d.value), ValueOf(d.value))])
    else ApplySetting(c, d)
  }

  /** The settings that have a field of their own; every other key is an extra. */
  datatype Setting =
    | ServerName | Binding | CacheSize | PrefetchDomain | ServeExpired | ServeExpiredTtl | ResponseMode
    | SpeedCheckMode | DualstackIpSelection | LogLevel | MdnsLookup | AuditEnable | Extra

  function SettingOf(key: string): Setting {
    if key == "server-name" then ServerName
    else if key == "bind" then Binding
    else if key == "cache-size" then CacheSize
    else if key == "prefetch-domain" then PrefetchDomain
    else if key == "serve-expired" then ServeExpired
    else if key == "serve-expired-ttl" then ServeExpiredTtl
    else if key == "response-mode" then ResponseMode
    else if key == "speed-check-mode" then SpeedCheckMode
    else if key == "dualstack-ip-selection" then DualstackIpSelection
    else if key == "log-level" then LogLevel
    else if key == "mdns-lookup" then MdnsLookup
    else if key == "audit-enable" then AuditEnable
    else Extra
  }

  function ApplySetting(c: BeginnerConfig, d: Directive): (next: BeginnerConfig)
    ensures next.upstreams == c.upstreams
  {
    Put(c, SettingOf(d.key), d.key, d.value)
  }

  function Put(c: BeginnerConfig, s: Setting, key: string, v: string): (next: BeginnerConfig)
    ensures next.upstreams == c.upstreams
  {
    c.(serverName := if s == ServerName then v else c.serverName,
       binds := if s == Binding then c.binds + [v] else c.binds,
       cacheSize := if s == CacheSize then v else c.cacheSize,
       prefetchDomain := if s == PrefetchDomain then ParseYesNo(v, true) else c.prefetchDomain,
       serveExpired := if s == ServeExpired then ParseYesNo(v, true) else c.serveExpired,
       serveExpiredTtl := if s == ServeExpiredTtl then v else c.serveExpiredTtl,
       responseMode := if s == ResponseMode then v else c.responseMode,
       speedCheckMode := if s == SpeedCheckMode then v else c.speedCheckMode,
       dualstackIpSelection := if s == DualstackIpSelection then ParseYesNo(v, true) else c.dualstackIpSelection,
       logLevel := if s == LogLevel then v else c.logLevel,
       mdnsLookup := if s == MdnsLookup then ParseYesNo(v, false) else c.mdnsLookup,
       auditEnable := if s == AuditEnable then ParseYesNo(v, false) else c.auditEnable,
       extras := if s == Extra then ExtrasAfter(c.extras, key, v) else c.extras)
  }

  function ExtrasAfter(extras: map<string, string>, key: string, v: string): map<string, string> {
    if v == "" then extras else if IsListKey(key) then Listed(extras, key, v) else extras[key := v]
  }

  function ApplyAll(c: BeginnerConfig, ds: seq<Directive>): BeginnerConfig
    decreases ds
  {
    if ds == [] then c else ApplyAll(Apply(c, ds[0]), ds[1..])
  }

  function ParseBeginner(text: string): BeginnerConfig {
    ApplyAll(DEFAULTS, Directives(text))
  }

  method ParseBeginnerConfig(text: string) returns (cfg: BeginnerConfig)
    ensures cfg == ParseBeginner(text)
  {
    cfg := DEFAULTS;
    var lines := CollectLogicalLines(text);
    assert lines[0..] == lines;
    for i := 0 to |lines|
      invariant ApplyAll(cfg, DirectivesFrom(lines[i..])) == ParseBeginner(text)
    {
      assert lines[i..][0] == lines[i] && lines[i..][1..] == lines[i + 1..];
      ghost var rest := DirectivesFrom(lines[i + 1..]);
      var trimmed := Trim(lines[i]);
      if trimmed == "" || IsComment(trimmed) {
        assert [] + rest == rest;
        continue;
      }
      assert ([DirectiveOf(trimmed)] + rest)[1..] == rest;
      cfg := Apply(cfg, Directive(KeyOf(trimmed), ValueOf(trimmed)));
    }
  }

  function ServersOf(d: Directive): seq<Upstream> {
    if IsServerKey(d.key) then [ParseUpstream(d.key, KeyOf(d.value), ValueOf(d.value))] else []
  }

  function ServersIn(ds: seq<Directive>): seq<Upstream> {
    if ds == [] then [] else ServersOf(ds[0]) + ServersIn(ds[1..])
  }

  lemma {:induction false} ApplyCollectsServers(c: BeginnerConfig, ds: seq<Directive>)
    ensures ApplyAll(c, ds).upstreams == c.upstreams + ServersIn(ds)
    decreases ds
  {
    if ds != [] {
      ApplyCollectsServers(Apply(c, ds[0]), ds[1..]);
      assert Apply(c, ds[0]).upstreams == c.upstreams + ServersOf(ds[0]);
      Reassociate(c.upstreams, ServersOf(ds[0]), ServersIn(ds[1..]));
    }
  }

  lemma {:induction false} ServersInAppend(a: seq<Directive>, b: seq<Directive>)
    ensures ServersIn(a + b) == ServersIn(a) + ServersIn(b)
  {
    if a == [] {
      assert a + b == b;
    } else {
      assert (a + b)[1..] == a[1..] + b;
      ServersInAppend(a[1..], b);
      Reassociate(ServersOf(a[0]), ServersIn(a[1..]), ServersIn(b));
    }
  }

  // ---------- Grouping ----------

  /** Lexicographic order of code points, the order of a sorted map of texts. */
  predicate Less(a: string, b: string) {
    b != "" && (a == "" || a[0] < b[0] || (a[0] == b[0] && Less(a[1..], b[1..])))
  }

  /** Where two texts differ first, the lesser has the lesser character, or has ended. */
  ghost predicate DiffersFirst(a: string, b: string, i: nat) {
    i <= |a| && i < |b| && a[..i] == b[..i] && (i == |a| || a[i] < b[i])
  }

  lemma AgreeFirst(a: string, b: string)
    ensures forall i: nat :: DiffersFirst(a, b, i) && i > 0 ==> a != "" && b != "" && a[0] == b[0]
  {
    forall i: nat | DiffersFirst(a, b, i) && i > 0 ensures a != "" && b != "" && a[0] == b[0] {
      assert a[..i][0] == b[..i][0];
    }
  }

  lemma {:induction false} LessMeans(a: string, b: string)
    ensures Less(a, b) <==> exists i: nat :: DiffersFirst(a, b, i)
  {
    if a == "" || b == "" || a[0] != b[0] {
      assert b != "" && (a == "" || a[0] < b[0]) ==> DiffersFirst(a, b, 0);
      AgreeFirst(a, b);
    } else {
      LessMeans(a[1..], b[1..]);
      forall i: nat ensures DiffersFirst(a, b, i + 1) <==> DiffersFirst(a[1..], b[1..], i) {
        if i < |a| && i + 1 < |b| {
          assert a[..i + 1] == [a[0]] + a[1..][..i] && b[..i + 1] == [b[0]] + b[1..][..i];
          assert a[1..][..i] == a[..i + 1][1..] && b[1..][..i] == b[..i + 1][1..];
        }
      }
      if i: nat :| DiffersFirst(a, b, i) {
        assert i > 0 && DiffersFirst(a[1..], b[1..], i - 1);
      }
      if i: nat :| DiffersFirst(a[1..], b[1..], i) {
        assert DiffersFirst(a, b, i + 1);
      }
    }
  }

  lemma {:induction false} LessIsOrder(a: string, b: string)
    ensures !(Less(a, b) && Less(b, a)) && !(Less(a, b) && a == b)
    ensures Less(a, b) || Less(b, a) || a == b
  {
    if a != "" && b != "" {
      LessIsOrder(a[1..], b[1..]);
      assert a == [a[0]] + a[1..] && b == [b[0]] + b[1..];
    }
  }

  lemma {:induction false} LessIsTransitive(a: string, b: string, c: string)
    requires Less(a, b) && Less(b, c)
    ensures Less(a, c)
  {
    if a != "" && b != "" && c != "" && a[0] == b[0] == c[0] {
      LessIsTransitive(a[1..], b[1..], c[1..]);
    }
  }

  datatype Entry = Entry(name: string, servers: seq<Upstream>)

  function Insert(entries: seq<Entry>, name: string, u: Upstream): seq<Entry> {
    if entries == [] || Less(name, entries[0].name) then [Entry(name, [u])] + entries
    else if name == entries[0].name then [Entry(name, entries[0].servers + [u])] + entries[1..]
    else [entries[0]] + Insert(entries[1..], name, u)
  }

  /** Upstreams without a value are not written. */
  function Visible(us: seq<Upstream>): seq<Upstream> {
    if us == [] then [] else (if Trim(us[0].value) == "" then [] else [us[0]]) + Visible(us[1..])
  }

  function Grouped(us: seq<Upstream>): seq<Entry> {
    if us == [] then []
    else
      var last, entries := us[|us| - 1], Grouped(us[..|us| - 1]);
      if last.groups == [] then entries else Insert(entries, last.groups[0], last)
  }

  function Ungrouped(us: seq<Upstream>): seq<Upstream> {
    if us == [] then []
    else Ungrouped(us[..|us| - 1]) + if us[|us| - 1].groups == [] then [us[|us| - 1]] else []
  }

  function FlatEntries(entries: seq<Entry>): seq<Upstream> {
    if entries == [] then [] else entries[0].servers + FlatEntries(entries[1..])
  }

  /** The upstreams in the order of the file. */
  function Regrouped(us: seq<Upstream>): seq<Upstream> {
    FlatEntries(Grouped(us)) + Ungrouped(us)
  }

  function FirstGroup(u: Upstream): Option<string> {
    if u.groups == [] then None else Some(u.groups[0])
  }

  function IfGroup(u: Upstream, group: Option<string>): seq<Upstream> {
    if FirstGroup(u) == group then [u] else []
  }

  function WithGroup(us: seq<Upstream>, group: Option<string>): seq<Upstream> {
    if us == [] then [] else IfGroup(us[0], group) + WithGroup(us[1..], group)
  }

  predicate SortedEntries(entries: seq<Entry>) {
    && (forall i, j :: 0 <= i < j < |entries| ==> Less(entries[i].name, entries[j].name))
    && (forall i :: 0 <= i < |entries| ==> Named(entries[i]))
  }

  predicate Named(e: Entry) {
    forall u :: u in e.servers ==> FirstGroup(u) == Some(e.name)
  }

  lemma {:induction false} InsertSorts(entries: seq<Entry>, name: string, u: Upstream)
    requires SortedEntries(entries) && FirstGroup(u) == Some(name)
    ensures SortedEntries(Insert(entries, name, u))
    ensures forall e :: e in Insert(entries, name, u) ==>
            e.name == name || exists e' :: e' in entries && e'.name == e.name
  {
    if entries == [] || Less(name, entries[0].name) {
      forall j | 0 <= j < |entries| ensures Less(name, entries[j].name) {
        if j > 0 {
          LessIsTransitive(name, entries[0].name, entries[j].name);
        }
      }
    } else if name == entries[0].name {
      assert entries[0] in entries;
    } else {
      var rest := entries[1..];
      LessIsOrder(name, entries[0].name);
      assert SortedEntries(rest);
      InsertSorts(rest, name, u);
      var inserted := Insert(rest, name, u);
      forall j | 0 <= j < |inserted| ensures Less(entries[0].name, inserted[j].name) {
        assert inserted[j] in inserted;
        if inserted[j].name != name {
          var e' :| e' in rest && e'.name == inserted[j].name;
        }
      }
    }
  }

  lemma {:induction false} WithGroupAppend(a: seq<Upstream>, b: seq<Upstream>, group: Option<string>)
    ensures WithGroup(a + b, group) == WithGroup(a, group) + WithGroup(b, group)
  {
    if a == [] {
      assert a + b == b;
    } else {
      assert (a + b)[1..] == a[1..] + b;
      WithGroupAppend(a[1..], b, group);
      Reassociate(IfGroup(a[0], group), WithGroup(a[1..], group), WithGroup(b, group));
    }
  }

  lemma {:induction false} WithGroupOfNamed(us: seq<Upstream>, name: string, group: Option<string>)
    requires forall u :: u in us ==> FirstGroup(u) == Some(name)
    ensures WithGroup(us, group) == if group == Some(name) then us else []
  {
    if us != [] {
      assert us[0] in us;
      WithGroupOfNamed(us[1..], name, group);
    }
  }

  lemma {:induction false} NoGroupBelow(entries: seq<Entry>, group: Option<string>)
    requires SortedEntries(entries) && forall e :: e in entries ==> group != Some(e.name)
    ensures WithGroup(FlatEntries(entries), group) == []
  {
    if entries != [] {
      assert entries[0] in entries && Named(entries[0]);
      WithGroupOfNamed(entries[0].servers, entries[0].name, group);
      NoGroupBelow(entries[1..], group);
      WithGroupAppend(entries[0].servers, FlatEntries(entries[1..]), group);
    }
  }

  lemma {:induction false} NoSuchEntry(entries: seq<Entry>, name: string)
    requires SortedEntries(entries) && (entries != [] ==> Less(name, entries[0].name))
    ensures WithGroup(FlatEntries(entries), Some(name)) == []
  {
    forall e | e in entries ensures name != e.name {
      var i :| 0 <= i < |entries| && entries[i] == e;
      if i > 0 {
        LessIsTransitive(name, entries[0].name, e.name);
      }
      LessIsOrder(name, e.name);
    }
    NoGroupBelow(entries, Some(name));
  }

  lemma SortedTail(entries: seq<Entry>)
    requires SortedEntries(entries) && entries != []
    ensures SortedEntries(entries[1..]) && Named(entries[0])
    ensures |entries| > 1 ==> Less(entries[0].name, entries[1].name)
  {
  }

  /** Inserting puts an upstream after the others of its group and disturbs no other group. */
  lemma {:induction false} InsertIsStable(entries: seq<Entry>, name: string, u: Upstream, group: Option<string>)
    requires SortedEntries(entries) && FirstGroup(u) == Some(name)
    ensures WithGroup(FlatEntries(Insert(entries, name, u)), group) ==
            WithGroup(FlatEntries(entries), group) + IfGroup(u, group)
  {
    if entries == [] || Less(name, entries[0].name) {
      InsertFirst(entries, name, u, group);
    } else if name == entries[0].name {
      InsertHere(entries, u, group);
    } else {
      var inserted := Insert(entries, name, u);
      SortedTail(entries);
      assert inserted[1..] == Insert(entries[1..], name, u);
      InsertIsStable(entries[1..], name, u, group);
      InsertBeyondFirst(entries[0].servers, FlatEntries(entries[1..]), FlatEntries(inserted[1..]), u, group);
    }
  }

  lemma {:induction false} InsertFirst(entries: seq<Entry>, name: string, u: Upstream, group: Option<string>)
    requires SortedEntries(entries) && FirstGroup(u) == Some(name)
    requires entries == [] || Less(name, entries[0].name)
    ensures WithGroup(FlatEntries(Insert(entries, name, u)), group) ==
            WithGroup(FlatEntries(entries), group) + IfGroup(u, group)
  {
    assert Insert(entries, name, u)[1..] == entries && [u][1..] == [];
    WithGroupAppend([u], FlatEntries(entries), group);
    NoSuchEntry(entries, name);
  }

  lemma {:induction false} InsertHere(entries: seq<Entry>, u: Upstream, group: Option<string>)
    requires SortedEntries(entries) && entries != [] && FirstGroup(u) == Some(entries[0].name)
    ensures WithGroup(FlatEntries(Insert(entries, entries[0].name, u)), group) ==
            WithGroup(FlatEntries(entries), group) + IfGroup(u, group)
  {
    var name := entries[0].name;
    SortedTail(entries);
    InsertedHere(entries, u);
    InsertIntoFirst(entries[0].servers, FlatEntries(entries[1..]), u, group);
    if group == Some(name) {
      NoSuchEntry(entries[1..], name);
    } else {
      assert IfGroup(u, group) == [];
    }
  }

  lemma {:induction false} InsertedHere(entries: seq<Entry>, u: Upstream)
    requires entries != []
    ensures FlatEntries(Insert(entries, entries[0].name, u)) == (entries[0].servers + [u]) + FlatEntries(entries[1..])
  {
    LessIsOrder(entries[0].name, entries[0].name);
    assert Insert(entries, entries[0].name, u)[1..] == entries[1..];
  }

  lemma InsertBeyondFirst(first: seq<Upstream>, rest: seq<Upstream>, inserted: seq<Upstream>, u: Upstream,
                          group: Option<string>)
    requires WithGroup(inserted, group) == WithGroup(rest, group) + IfGroup(u, group)
    ensures WithGroup(first + inserted, group) == WithGroup(first + rest, group) + IfGroup(u, group)
  {
    WithGroupAppend(first, inserted, group);
    WithGroupAppend(first, rest, group);
    Reassociate(WithGroup(first, group), WithGroup(rest, group), IfGroup(u, group));
  }

  lemma InsertIntoFirst(first: seq<Upstream>, rest: seq<Upstream>, u: Upstream, group: Option<string>)
    ensures WithGroup(first + [u] + rest, group) == WithGroup(first, group) + IfGroup(u, group) + WithGroup(rest, group)
    ensures WithGroup(first + rest, group) == WithGroup(first, group) + WithGroup(rest, group)
  {
    assert [u][1..] == [];
    assert WithGroup([u], group) == IfGroup(u, group) + [] == IfGroup(u, group);
    WithGroupAppend(first + [u], rest, group);
    WithGroupAppend(first, [u], group);
    WithGroupAppend(first, rest, group);
  }

  lemma {:induction false} GroupedSorts(us: seq<Upstream>)
    ensures SortedEntries(Grouped(us))
  {
    if us != [] {
      GroupedSorts(us[..|us| - 1]);
      var last := us[|us| - 1];
      if last.groups != [] {
        InsertSorts(Grouped(us[..|us| - 1]), last.groups[0], last);
      }
    }
  }

  lemma GroupStep(us: seq<Upstream>, u: Upstream)
    ensures Grouped(us + [u]) == if u.groups == [] then Grouped(us) else Insert(Grouped(us), u.groups[0], u)
    ensures Ungrouped(us + [u]) == Ungrouped(us) + if u.groups == [] then [u] else []
  {
    assert (us + [u])[..|us|] == us;
  }

  lemma WithGroupSnoc(us: seq<Upstream>, u: Upstream, group: Option<string>)
    ensures WithGroup(us + [u], group) == WithGroup(us, group) + IfGroup(u, group)
  {
    WithGroupAppend(us, [u], group);
    assert [u][1..] == [];
  }

  lemma {:induction false} GroupedKeeps(us: seq<Upstream>, group: Option<string>)
    ensures WithGroup(FlatEntries(Grouped(us)), group) == if group.Some? then WithGroup(us, group) else []
  {
    if us != [] {
      var init, last := us[..|us| - 1], us[|us| - 1];
      assert init + [last] == us;
      GroupedKeeps(init, group);
      GroupedSorts(init);
      GroupStep(init, last);
      WithGroupSnoc(init, last, group);
      if last.groups != [] {
        InsertIsStable(Grouped(init), last.groups[0], last, group);
      }
    }
  }

  lemma {:induction false} UngroupedKeeps(us: seq<Upstream>, group: Option<string>)
    ensures WithGroup(Ungrouped(us), group) == if group.None? then WithGroup(us, group) else []
  {
    if us != [] {
      var init, last := us[..|us| - 1], us[|us| - 1];
      assert init + [last] == us;
      UngroupedKeeps(init, group);
      WithGroupSnoc(init, last, group);
      if last.groups == [] {
        WithGroupSnoc(Ungrouped(init), last, group);
      } else {
        assert Ungrouped(us) == Ungrouped(init);
      }
    }
  }

  /** Regrouping is stable: the upstreams of each group, and those of none, keep their order. */
  lemma RegroupingIsStable(us: seq<Upstream>, group: Option<string>)
    ensures WithGroup(Regrouped(us), group) == WithGroup(us, group)
  {
    GroupedKeeps(us, group);
    UngroupedKeeps(us, group);
    WithGroupAppend(FlatEntries(Grouped(us)), Ungrouped(us), group);
    assert WithGroup(us, group) + [] == WithGroup(us, group) && [] + WithGroup(us, group) == WithGroup(us, group);
  }

  lemma CountCons(x: Upstream, rest: seq<Upstream>, u: Upstream)
    ensures multiset([x] + rest)[u] == (if x == u then 1 else 0) + multiset(rest)[u]
  {
  }

  lemma {:induction false} WithGroupCounts(us: seq<Upstream>, u: Upstream)
    ensures multiset(WithGroup(us, FirstGroup(u)))[u] == multiset(us)[u]
  {
    if us != [] {
      WithGroupCounts(us[1..], u);
      CountCons(us[0], us[1..], u);
      CountCons(us[0], WithGroup(us[1..], FirstGroup(u)), u);
      assert us == [us[0]] + us[1..];
      assert [] + WithGroup(us[1..], FirstGroup(u)) == WithGroup(us[1..], FirstGroup(u));
    }
  }

  /** Regrouping neither loses nor duplicates an upstream. */
  lemma RegroupingIsPermutation(us: seq<Upstream>)
    ensures multiset(Regrouped(us)) == multiset(us)
  {
    forall u ensures multiset(Regrouped(us))[u] == multiset(us)[u] {
      RegroupingIsStable(us, FirstGroup(u));
      WithGroupCounts(us, u);
      WithGroupCounts(Regrouped(us), u);
    }
  }

  /** Groups come in ascending order, upstreams without a group last. */
  predicate InOrder(a: Option<string>, b: Option<string>) {
    b.None? || (a.Some? && !Less(b.value, a.value))
  }

  predicate GroupsInOrder(us: seq<Upstream>) {
    forall i, j :: 0 <= i < j < |us| ==> InOrder(FirstGroup(us[i]), FirstGroup(us[j]))
  }

  lemma OrderJoins(a: seq<Upstream>, b: seq<Upstream>)
    requires GroupsInOrder(a) && GroupsInOrder(b)
    requires forall x, y :: x in a && y in b ==> InOrder(FirstGroup(x), FirstGroup(y))
    ensures GroupsInOrder(a + b)
  {
  }

  lemma {:induction false} FlatEntriesNamed(entries: seq<Entry>)
    requires SortedEntries(entries)
    ensures forall u :: u in FlatEntries(entries) ==> exists e :: e in entries && FirstGroup(u) == Some(e.name)
  {
    if entries != [] {
      SortedTail(entries);
      FlatEntriesNamed(entries[1..]);
      forall u | u in FlatEntries(entries) ensures exists e :: e in entries && FirstGroup(u) == Some(e.name) {
        if u in entries[0].servers {
          assert entries[0] in entries;
        } else {
          var e :| e in entries[1..] && FirstGroup(u) == Some(e.name);
          assert e in entries;
        }
      }
    }
  }

  lemma {:induction false} FlatEntriesSorted(entries: seq<Entry>)
    requires SortedEntries(entries)
    ensures GroupsInOrder(FlatEntries(entries))
  {
    if entries != [] {
      var first, rest := entries[0], entries[1..];
      SortedTail(entries);
      FlatEntriesSorted(rest);
      FlatEntriesNamed(rest);
      LessIsOrder(first.name, first.name);
      assert GroupsInOrder(first.servers);
      forall x, y | x in first.servers && y in FlatEntries(rest) ensures InOrder(FirstGroup(x), FirstGroup(y)) {
        FirstComesFirst(entries, y);
      }
      OrderJoins(first.servers, FlatEntries(rest));
    }
  }

  lemma FirstComesFirst(entries: seq<Entry>, u: Upstream)
    requires SortedEntries(entries) && entries != [] && u in FlatEntries(entries)
    requires forall v :: v in FlatEntries(entries[1..]) ==>
             exists e :: e in entries[1..] && FirstGroup(v) == Some(e.name)
    ensures InOrder(Some(entries[0].name), FirstGroup(u))
  {
    SortedTail(entries);
    if u in entries[0].servers {
      LessIsOrder(entries[0].name, entries[0].name);
    } else {
      var e :| e in entries[1..] && FirstGroup(u) == Some(e.name);
      var k :| 0 <= k < |entries[1..]| && entries[1..][k] == e;
      assert Less(entries[0].name, entries[k + 1].name);
      LessIsOrder(entries[0].name, e.name);
    }
  }

  lemma {:induction false} UngroupedHaveNone(us: seq<Upstream>)
    ensures forall u :: u in Ungrouped(us) ==> FirstGroup(u) == None
  {
    if us != [] {
      UngroupedHaveNone(us[..|us| - 1]);
    }
  }

  lemma RegroupingIsSorted(us: seq<Upstream>)
    ensures var r := Regrouped(us);
            forall i, j :: 0 <= i < j < |r| ==> InOrder(FirstGroup(r[i]), FirstGroup(r[j]))
  {
    GroupedSorts(us);
    FlatEntriesSorted(Grouped(us));
    FlatEntriesNamed(Grouped(us));
    UngroupedHaveNone(us);
    var a, b := FlatEntries(Grouped(us)), Ungrouped(us);
    forall i, j | 0 <= i < j < |a + b| ensures InOrder(FirstGroup((a + b)[i]), FirstGroup((a + b)[j])) {
      if j >= |a| {
        assert (a + b)[j] == b[j - |a|] && b[j - |a|] in b;
      }
    }
  }

  // ---------- Rendering ----------

  function UpstreamKey(kind: string): string {
    var k := Trim(kind);
    if k == "server" || k == "udp" then "server"
    else if k == "server-tcp" || k == "tcp" then "server-tcp"
    else if k == "server-tls" || k == "tls" then "server-tls"
    else if k == "server-https" || k == "https" then "server-https"
    else if k == "server-quic" || k == "quic" then "server-quic"
    else if k == "server-http3" || k == "http3" || k == "h3" then "server-http3"
    else "server"
  }

  function LineOf(u: Upstream): string {
    var head := UpstreamKey(u.kind) + " " + Trim(u.value);
    if Trim(RenderOptions(u)) == "" then head else head + " " + RenderOptions(u)
  }

  function LinesOf(us: seq<Upstream>): seq<string> {
    if us == [] then [] else LinesOf(us[..|us| - 1]) + [LineOf(us[|us| - 1])]
  }

  function Bar(): string {
    "# " + seq(43, _ => '═')
  }

  const HEADING := "#" + "  上游 DNS 服务器"

  function Header(): seq<string> {
    [Bar(), HEADING, Bar(), ""]
  }

  function GroupTitle(name: string): string {
    "# " + "── 分组: " + name + " ──"
  }

  const UNGROUPED_TITLE := "# " + "── 默认组（未分组）──"

  function EntryLines(entries: seq<Entry>): seq<string> {
    if entries == [] then []
    else
      var last := entries[|entries| - 1];
      EntryLines(entries[..|entries| - 1]) + ([GroupTitle(last.name)] + LinesOf(last.servers) + [""])
  }

  function UngroupedLines(us: seq<Upstream>): seq<string> {
    if us == [] then [] else [UNGROUPED_TITLE] + LinesOf(us) + [""]
  }

  function FileLines(us: seq<Upstream>): seq<string> {
    Header() + EntryLines(Grouped(us)) + UngroupedLines(Ungrouped(us))
  }

  function Plainly(kind: string, value: string, group: string, fallback: bool, note: string): Upstream {
    Upstream(kind, value, [group], false, "", "", "", "", fallback, "", note)
  }

  const DEFAULT_UPSTREAMS: seq<Upstream> :=
    [Plainly("server-https", "https://dns.alidns.com/dns-query", "cn", false, "国内 HTTPS DNS"),
     Plainly("server-https", "https://cloudflare-dns.com/dns-query", "global", true, "海外备用 HTTPS DNS")]

  function RenderUpstreams(us: seq<Upstream>): string {
    Join(FileLines(Visible(if us == [] then DEFAULT_UPSTREAMS else us)) + [""], "\n")
  }

  lemma {:induction false} VisibleAppend(us: seq<Upstream>, u: Upstream)
    ensures Visible(us + [u]) == Visible(us) + if Trim(u.value) == "" then [] else [u]
  {
    if us != [] {
      assert (us + [u])[1..] == us[1..] + [u];
      VisibleAppend(us[1..], u);
    }
  }

  method RenderUpstreamsConfig(configured: seq<Upstream>) returns (text: string)
    ensures text == RenderUpstreams(configured)
  {
    var upstreams := if configured == [] then DEFAULT_UPSTREAMS else configured;
    var grouped, ungrouped := GroupUpstreams(upstreams);
    var lines := RenderEntries(grouped);
    if ungrouped != [] {
      var servers := RenderServers(ungrouped);
      lines := lines + ([UNGROUPED_TITLE] + servers + [""]);
    }
    assert lines == FileLines(Visible(upstreams));
    text := Join(lines + [""], "\n");
  }

  /** The header and one titled block for each group. */
  method RenderEntries(grouped: seq<Entry>) returns (lines: seq<string>)
    ensures lines == Header() + EntryLines(grouped)
  {
    lines := Header();
    for i := 0 to |grouped|
      invariant lines == Header() + EntryLines(grouped[..i])
    {
      var servers := RenderServers(grouped[i].servers);
      assert grouped[..i + 1][..i] == grouped[..i];
      Reassociate(Header(), EntryLines(grouped[..i]), [GroupTitle(grouped[i].name)] + servers + [""]);
      lines := lines + ([GroupTitle(grouped[i].name)] + servers + [""]);
    }
    assert grouped[..|grouped|] == grouped;
  }

  method GroupUpstreams(upstreams: seq<Upstream>) returns (grouped: seq<Entry>, ungrouped: seq<Upstream>)
    ensures grouped == Grouped(Visible(upstreams)) && ungrouped == Ungrouped(Visible(upstreams))
  {
    grouped, ungrouped := [], [];
    for i := 0 to |upstreams|
      invariant grouped == Grouped(Visible(upstreams[..i])) && ungrouped == Ungrouped(Visible(upstreams[..i]))
    {
      var u, seen := upstreams[i], Visible(upstreams[..i]);
      assert upstreams[..i + 1] == upstreams[..i] + [u];
      VisibleAppend(upstreams[..i], u);
      if Trim(u.value) == "" {
        assert seen + [] == seen;
        continue;
      }
      GroupStep(seen, u);
      if u.groups != [] {
        grouped := Insert(grouped, u.groups[0], u);
      } else {
        ungrouped := ungrouped + [u];
      }
    }
    assert upstreams[..|upstreams|] == upstreams;
  }

  method RenderServers(servers: seq<Upstream>) returns (lines: seq<string>)
    ensures lines == LinesOf(servers)
  {
    lines := [];
    for i := 0 to |servers|
      invariant lines == LinesOf(servers[..i])
    {
      var u := servers[i];
      assert servers[..i + 1][..i] == servers[..i];
      var key, opts := UpstreamKey(u.kind), RenderOptions(u);
      if Trim(opts) == "" {
        lines := lines + [key + " " + Trim(u.value)];
      } else {
        lines := lines + [key + " " + Trim(u.value) + " " + opts];
      }
    }
    assert servers[..|servers|] == servers;
  }

  // ---------- Reading the file back ----------

  predicate Canonical(kind: string) {
    kind == "server" || kind == "server-tcp" || kind == "server-tls" || kind == "server-https" ||
    kind == "server-quic" || kind == "server-http3"
  }

  function FieldsFor(u: Upstream): Fields {
    Fields(u.groups, u.excludeDefaultGroup, u.proxyName, u.bootstrapDns, u.hostIp, u.subnet, u.fallback,
           Words(u.options))
  }

  /** Fields shaped like tokens, options in normal form, and no line that ends in a backslash. */
  predicate TokenShaped(u: Upstream) {
    && WellFormed(FieldsFor(u)) && u.options == Join(Words(u.options), " ")
    && (Blank(u.value) || (IsWord(u.value) && !EndsWith(LineOf(u), '\\')))
  }

  /** Upstreams as they come back: the kind is the key of the line, and the note is gone. */
  function AsRead(us: seq<Upstream>): seq<Upstream> {
    if us == [] then [] else [us[0].(kind := UpstreamKey(us[0].kind), note := "")] + AsRead(us[1..])
  }

  lemma HashIsSilent(line: string)
    requires StartsWith(line, '#')
    ensures Silent(line)
  {
    assert TrimStart(line) == line;
    TrimEndLast(line);
    var blank := TrimEndSplits(line);
    assert TrimEnd(line) == "" ==> blank == line && line[0] in blank;
  }

  predicate TightPart(s: string) {
    s != "" && Tight(s) && Unbroken(s)
  }

  lemma {:induction false} JoinOfTight(parts: seq<string>)
    requires forall p :: p in parts ==> TightPart(p)
    ensures Tight(Join(parts, " ")) && Unbroken(Join(parts, " ")) && (parts != [] ==> Join(parts, " ") != "")
  {
    if parts != [] {
      assert parts[0] in parts;
      if |parts| > 1 {
        JoinOfTight(parts[1..]);
        var rest := Join(parts[1..], " ");
        assert Join(parts, " ") == parts[0] + " " + rest;
      }
    }
  }

  lemma WordIsTightPart(w: string)
    requires IsWord(w)
    ensures TightPart(w) && Trim(w) == w && !Blank(w)
  {
    WordIsTight(w);
    assert '\n' in w ==> IsSpace('\n');
    assert w[0] in w;
  }

  lemma SettingIsTight(flag: Flag, value: string)
    requires flag != NoFlag && Argument(value)
    ensures forall p :: p in SettingPart(flag, value) ==> TightPart(p)
  {
    if value != "" {
      WordIsTightPart(value);
      SpellingsAreWords(flag);
      WordIsTightPart(Spelling(flag));
      assert SettingPart(flag, value) == [Spelling(flag) + " " + value];
    }
  }

  lemma {:induction false} GroupsAreTight(groups: seq<string>)
    requires AllWords(groups)
    ensures forall p :: p in GroupParts(groups) ==> TightPart(p)
  {
    if groups != [] {
      assert groups[0] in groups;
      SettingIsTight(GroupFlag, groups[0]);
      GroupsAreTight(groups[1..]);
    }
  }

  lemma OptionsAreTight(u: Upstream)
    requires TokenShaped(u)
    ensures Tight(RenderOptions(u)) && Unbroken(RenderOptions(u))
  {
    GroupsAreTight(u.groups);
    SettingIsTight(ProxyFlag, u.proxyName);
    SettingIsTight(BootstrapFlag, u.bootstrapDns);
    SettingIsTight(HostIpFlag, u.hostIp);
    SettingIsTight(SubnetFlag, u.subnet);
    SpellingsAreWords(ExcludeFlag);
    SpellingsAreWords(FallbackFlag);
    WordIsTightPart(Spelling(ExcludeFlag));
    WordIsTightPart(Spelling(FallbackFlag));
    PassthroughIsTight(u);
    JoinOfTight(OptionParts(u));
  }

  lemma PassthroughIsTight(u: Upstream)
    requires TokenShaped(u)
    ensures Trim(u.options) != "" ==> TightPart(Trim(u.options))
  {
    var words := Words(u.options);
    WordsAreWords(u.options);
    forall w | w in words ensures TightPart(w) {
      WordIsTightPart(w);
    }
    JoinOfTight(words);
    TrimOfTight(u.options);
  }

  lemma ShortKeysAreWords()
    ensures IsWord("server") && IsWord("server-tcp") && IsWord("server-tls")
  {
  }

  lemma LongKeysAreWords()
    ensures IsWord("server-https") && IsWord("server-quic") && IsWord("server-http3")
  {
  }

  lemma KeysAreWords(kind: string)
    ensures IsWord(UpstreamKey(kind)) && UpstreamKey(kind)[0] == 's' && Canonical(UpstreamKey(kind))
  {
    ShortKeysAreWords();
    LongKeysAreWords();
  }

  lemma CanonicalIsServer(kind: string)
    requires Canonical(kind)
    ensures IsServerKey(kind)
  {
  }

  /** Which kinds are written under which key; all others, `server-h3` among them, are written as
      plain servers. */
  lemma KindsMean(kind: string)
    ensures UpstreamKey(kind) == "server-tcp" <==> Trim(kind) == "server-tcp" || Trim(kind) == "tcp"
    ensures UpstreamKey(kind) == "server-tls" <==> Trim(kind) == "server-tls" || Trim(kind) == "tls"
    ensures UpstreamKey(kind) == "server-https" <==> Trim(kind) == "server-https" || Trim(kind) == "https"
    ensures UpstreamKey(kind) == "server-quic" <==> Trim(kind) == "server-quic" || Trim(kind) == "quic"
    ensures UpstreamKey(kind) == "server-http3" <==>
            Trim(kind) == "server-http3" || Trim(kind) == "http3" || Trim(kind) == "h3"
    ensures Canonical(UpstreamKey(kind))
  {
    assert "server-tcp"[7] == 't' && "server-tls"[8] == 'l' && "server-tcp"[8] == 'c';
  }

  /** A kind survives a save if and only if it is one of the six keys. */
  lemma KindIsKeptIff(kind: string)
    ensures UpstreamKey(kind) == kind <==> Canonical(kind)
  {
    KeysAreWords(kind);
    if Canonical(kind) {
      CanonicalIsTight(kind);
      TrimOfTight(kind);
    }
  }

  lemma CanonicalIsTight(kind: string)
    requires Canonical(kind)
    ensures Tight(kind)
  {
    ShortKeysAreWords();
    LongKeysAreWords();
    WordIsTight(kind);
  }

  lemma LineIsTight(key: string, rest: string)
    requires IsWord(key) && key[0] == 's' && TightPart(rest)
    ensures var line := key + " " + rest;
            && Trim(line) == line && Clean(line) && !Silent(line)
  {
    var line := key + " " + rest;
    WordIsTightPart(key);
    assert Tight(line);
    TrimOfTight(line);
  }

  function ValueAndOptions(value: string, opts: string): string {
    if opts == "" then value else value + " " + opts
  }

  lemma ValueAndOptionsSplit(value: string, opts: string)
    requires IsWord(value) && Tight(opts) && Unbroken(opts)
    ensures var rest := ValueAndOptions(value, opts);
            TightPart(rest) && KeyOf(rest) == value && ValueOf(rest) == opts
  {
    WordIsTightPart(value);
    TrimOfTight(opts);
    KeyAndValue(value, opts);
  }

  lemma LineWith(u: Upstream, rest: string)
    requires Trim(u.value) == u.value && Tight(RenderOptions(u))
    requires rest == ValueAndOptions(u.value, RenderOptions(u))
    ensures LineOf(u) == UpstreamKey(u.kind) + " " + rest
  {
    TrimOfTight(RenderOptions(u));
    Reassociate(UpstreamKey(u.kind) + " ", u.value + " ", RenderOptions(u));
    Reassociate(UpstreamKey(u.kind) + " ", u.value, " ");
  }

  /** What follows the key: the value and, if there are any, the options. */
  lemma RestOfLine(u: Upstream) returns (rest: string)
    requires TokenShaped(u) && IsWord(u.value)
    ensures LineOf(u) == UpstreamKey(u.kind) + " " + rest && TightPart(rest)
    ensures KeyOf(rest) == u.value && ValueOf(rest) == RenderOptions(u)
  {
    rest := ValueAndOptions(u.value, RenderOptions(u));
    assert Tight(RenderOptions(u)) && Unbroken(RenderOptions(u)) by {
      OptionsAreTight(u);
    }
    ValueAndOptionsSplit(u.value, RenderOptions(u));
    WordIsTightPart(u.value);
    LineWith(u, rest);
  }

  /** Lines that can be read back, and the servers they give. */
  predicate Reads(lines: seq<string>, servers: seq<Upstream>) {
    (forall l :: l in lines ==> Rendered(l)) && ServersIn(Spoken(lines)) == servers
  }

  lemma ReadsJoin(a: seq<string>, us: seq<Upstream>, b: seq<string>, vs: seq<Upstream>)
    requires Reads(a, us) && Reads(b, vs)
    ensures Reads(a + b, us + vs)
  {
    SpokenAppend(a, b);
    ServersInAppend(Spoken(a), Spoken(b));
  }

  lemma SilentReads(line: string)
    requires Clean(line) && Silent(line)
    ensures Reads([line], [])
  {
    assert [line][1..] == [];
  }

  lemma DirectiveReads(line: string)
    requires Rendered(line) && !Silent(line)
    ensures Reads([line], ServersOf(DirectiveOf(Trim(line))))
  {
    var d := DirectiveOf(Trim(line));
    assert [line][1..] == [] && [d][1..] == [];
    assert Spoken([line]) == [d] + [] == [d];
    assert ServersIn([d]) == ServersOf(d) + [];
  }

  /** A line, read as one directive, gives the server it was rendered from. */
  lemma LineReads(u: Upstream)
    requires TokenShaped(u) && IsWord(u.value)
    ensures Reads([LineOf(u)], [u.(kind := UpstreamKey(u.kind), note := "")])
  {
    var key := UpstreamKey(u.kind);
    var rest := RestOfLine(u);
    KeysAreWords(u.kind);
    CanonicalIsServer(key);
    LineIsTight(key, rest);
    WordIsTightPart(u.value);
    KeyAndValue(key, rest);
    TrimOfTight(rest);
    DirectiveReads(LineOf(u));
    RenderedReadsBack(key, u.value, u, FieldsFor(u));
  }

  predicate AllShaped(us: seq<Upstream>) {
    forall u :: u in us ==> TokenShaped(u) && IsWord(u.value)
  }

  lemma {:induction false} LinesRead(us: seq<Upstream>)
    requires AllShaped(us)
    ensures Reads(LinesOf(us), AsRead(us))
  {
    if us != [] {
      var init, last := us[..|us| - 1], us[|us| - 1];
      assert init + [last] == us && last in us;
      LinesRead(init);
      LinesReadStep(init, last);
    }
  }

  lemma LinesReadStep(us: seq<Upstream>, u: Upstream)
    requires Reads(LinesOf(us), AsRead(us)) && TokenShaped(u) && IsWord(u.value)
    ensures Reads(LinesOf(us + [u]), AsRead(us + [u]))
  {
    LineReads(u);
    ReadsJoin(LinesOf(us), AsRead(us), [LineOf(u)], [u.(kind := UpstreamKey(u.kind), note := "")]);
    AsReadAppend(us, [u]);
    assert [u][1..] == [] && (us + [u])[..|us|] == us;
  }

  lemma {:induction false} AsReadAppend(a: seq<Upstream>, b: seq<Upstream>)
    ensures AsRead(a + b) == AsRead(a) + AsRead(b)
  {
    if a == [] {
      assert a + b == b;
    } else {
      assert (a + b)[1..] == a[1..] + b;
      AsReadAppend(a[1..], b);
    }
  }

  /** A titled block of server lines and the blank line after it. */
  lemma BlockReads(title: string, us: seq<Upstream>)
    requires StartsWith(title, '#') && Clean(title) && AllShaped(us)
    ensures Reads([title] + LinesOf(us) + [""], AsRead(us))
  {
    HashIsSilent(title);
    SilentReads(title);
    SilentReads("");
    LinesRead(us);
    ReadsJoin([title], [], LinesOf(us), AsRead(us));
    ReadsJoin([title] + LinesOf(us), [] + AsRead(us), [""], []);
    assert [] + AsRead(us) + [] == AsRead(us);
  }

  lemma {:induction false} EntriesRead(entries: seq<Entry>)
    requires AllShaped(FlatEntries(entries)) && forall e :: e in entries ==> IsWord(e.name)
    ensures Reads(EntryLines(entries), AsRead(FlatEntries(entries)))
  {
    if entries != [] {
      var init, last := entries[..|entries| - 1], entries[|entries| - 1];
      assert init + [last] == entries && last in entries;
      FlatEntriesAppend(init, last);
      EntriesRead(init);
      TitleIsClean(last.name);
      BlockReads(GroupTitle(last.name), last.servers);
      ReadsJoin(EntryLines(init), AsRead(FlatEntries(init)),
                [GroupTitle(last.name)] + LinesOf(last.servers) + [""], AsRead(last.servers));
      AsReadAppend(FlatEntries(init), last.servers);
    }
  }

  lemma {:induction false} FlatEntriesAppend(entries: seq<Entry>, e: Entry)
    ensures FlatEntries(entries + [e]) == FlatEntries(entries) + e.servers
  {
    if entries == [] {
      assert [e][1..] == [] && [] + [e] == [e];
    } else {
      assert (entries + [e])[1..] == entries[1..] + [e];
      FlatEntriesAppend(entries[1..], e);
      Reassociate(entries[0].servers, FlatEntries(entries[1..]), e.servers);
    }
  }

  lemma TitleIsClean(name: string)
    requires IsWord(name)
    ensures StartsWith(GroupTitle(name), '#') && Clean(GroupTitle(name))
  {
    WordIsTightPart(name);
    assert Unbroken("── 分组: ") && Unbroken(" ──");
  }

  lemma HeaderReads()
    ensures Reads(Header(), [])
  {
    HashIsSilent(Bar());
    HashIsSilent(HEADING);
    assert Unbroken("  上游 DNS 服务器");
    assert Clean(Bar()) && Clean(HEADING);
    SilentReads(Bar());
    SilentReads(HEADING);
    SilentReads("");
    ReadsJoin([Bar()], [], [HEADING], []);
    ReadsJoin([Bar()] + [HEADING], [], [Bar()], []);
    ReadsJoin([Bar()] + [HEADING] + [Bar()], [], [""], []);
    assert [Bar()] + [HEADING] + [Bar()] + [""] == Header();
  }

  lemma UngroupedRead(us: seq<Upstream>)
    requires AllShaped(us)
    ensures Reads(UngroupedLines(us), AsRead(us))
  {
    if us != [] {
      assert Unbroken("── 默认组（未分组）──");
      assert Clean(UNGROUPED_TITLE);
      BlockReads(UNGROUPED_TITLE, us);
    }
  }

  // ---------- The file round trip ----------

  lemma {:induction false} VisibleIs(us: seq<Upstream>)
    ensures forall u :: u in Visible(us) <==> u in us && Trim(u.value) != ""
  {
    if us != [] {
      VisibleIs(us[1..]);
    }
  }

  lemma RegroupedMembers(us: seq<Upstream>, u: Upstream)
    ensures u in Regrouped(us) <==> u in us
  {
    RegroupingIsPermutation(us);
    assert multiset(Regrouped(us))[u] == multiset(us)[u];
  }

  lemma {:induction false} EntriesAreUsed(us: seq<Upstream>)
    ensures forall e :: e in Grouped(us) ==> exists u :: u in us && u.groups != [] && u.groups[0] == e.name
  {
    if us != [] {
      var init, last := us[..|us| - 1], us[|us| - 1];
      EntriesAreUsed(init);
      GroupedSorts(init);
      if last.groups != [] {
        InsertSorts(Grouped(init), last.groups[0], last);
      }
      forall e | e in Grouped(us) ensures exists u :: u in us && u.groups != [] && u.groups[0] == e.name {
        if last.groups != [] && e.name == last.groups[0] {
          assert last in us;
        } else {
          var e' :| e' in Grouped(init) && e'.name == e.name;
          var u :| u in init && u.groups != [] && u.groups[0] == e'.name;
          assert u in us;
        }
      }
    }
  }

  lemma GroupedAreShaped(us: seq<Upstream>)
    requires forall u :: u in us ==> TokenShaped(u)
    ensures var vs := Visible(us);
            && AllShaped(FlatEntries(Grouped(vs))) && AllShaped(Ungrouped(vs))
            && forall e :: e in Grouped(vs) ==> IsWord(e.name)
  {
    var vs := Visible(us);
    VisibleIs(us);
    forall u | u in Regrouped(vs) ensures TokenShaped(u) && IsWord(u.value) {
      RegroupedMembers(vs, u);
      BlankTrims(u.value);
    }
    assert forall u :: u in FlatEntries(Grouped(vs)) ==> u in Regrouped(vs);
    assert forall u :: u in Ungrouped(vs) ==> u in Regrouped(vs);
    EntriesAreUsed(vs);
    forall e | e in Grouped(vs) ensures IsWord(e.name) {
      var u :| u in vs && u.groups != [] && u.groups[0] == e.name;
      assert WellFormed(FieldsFor(u)) && u.groups[0] in u.groups;
    }
  }

  /** Reading the rendered file gives the upstreams with a value, stably regrouped by their first
      group in ascending order with the ungrouped last, and their notes cleared. */
  lemma UpstreamFileRoundTrip(us: seq<Upstream>)
    requires us != [] && forall u :: u in us ==> TokenShaped(u)
    ensures ParseBeginner(RenderUpstreams(us)).upstreams == AsRead(Regrouped(Visible(us)))
  {
    var vs := Visible(us);
    GroupedAreShaped(us);
    FileReads(Grouped(vs), Ungrouped(vs));
    UnlinesIsJoin(FileLines(vs));
    DirectivesOfRendered(FileLines(vs));
    ApplyCollectsServers(DEFAULTS, Directives(RenderUpstreams(us)));
  }

  lemma FileReads(entries: seq<Entry>, rest: seq<Upstream>)
    requires AllShaped(FlatEntries(entries)) && AllShaped(rest)
    requires forall e :: e in entries ==> IsWord(e.name)
    ensures Reads(Header() + EntryLines(entries) + UngroupedLines(rest), AsRead(FlatEntries(entries) + rest))
  {
    HeaderReads();
    EntriesRead(entries);
    UngroupedRead(rest);
    ReadsJoin(Header(), [], EntryLines(entries), AsRead(FlatEntries(entries)));
    ReadsJoin(Header() + EntryLines(entries), [] + AsRead(FlatEntries(entries)),
              UngroupedLines(rest), AsRead(rest));
    AsReadAppend(FlatEntries(entries), rest);
    assert [] + AsRead(FlatEntries(entries)) == AsRead(FlatEntries(entries));
  }
}
