/** What an include line leads to, in terms of the words on it and the directory of its file, and
    which include lines put a file among the sources. */
module IncludeMeaning {
  import opened Common
  import opened Text
  import opened ConfigLines
  import opened ManagedAssets
  import opened ManagedBlock
  import opened IncludeWalk

  /** A line asks for a file: its first word is a path from the root, or one from the directory of the
      including file, and names an existing file; the group is what the option says. */
  ghost predicate Asks(t: Tree, dir: string, d: Directive, e: Visit) {
    && d.key == "conf-file" && Words(d.value) != []
    && Target(dir, Words(d.value)[0]) in t.links && e.path == t.links[Target(dir, Words(d.value)[0])]
    && OptionReads(Words(d.value), "-group", e.group)
  }

  function Target(dir: string, name: string): string {
    if StartsWith(name, '/') then name else dir + "/" + name
  }

  lemma {:induction false} LastSlashOf(dir: string, file: string)
    requires '/' !in file
    ensures LastSlash(dir + "/" + file) == |dir|
    decreases |dir|
  {
    var s := dir + "/" + file;
    if dir == "" {
      assert s[1..] == file;
    } else {
      assert s[1..] == dir[1..] + "/" + file;
      LastSlashOf(dir[1..], file);
    }
  }

  lemma ParentIs(dir: string, file: string)
    requires '/' !in file && file != "" && !EndsWith(dir, '/')
    ensures Parent(dir + "/" + file) == if dir == "" then "/" else dir
  {
    LastSlashOf(dir, file);
    assert (dir + "/" + file)[..|dir|] == dir;
  }

  lemma ResolvedIs(dir: string, file: string, name: string)
    requires '/' !in file && file != "" && !EndsWith(dir, '/')
    ensures ResolveIncludePath(dir + "/" + file, name) == Target(dir, name)
  {
    ParentIs(dir, file);
    assert "/" + name == "" + "/" + name;
  }

  lemma OptionIsOne(words: seq<string>, name: string, a: Option<string>, b: Option<string>)
    requires OptionReads(words, name, a) && OptionReads(words, name, b)
    ensures a == b
  {
    assert forall j: nat, k: nat :: FirstAmong(words, name, j) && FirstAmong(words, name, k) ==> !(j < k);
  }

  lemma ValuedHasWords(d: Directive)
    requires Tight(d.value)
    ensures d.value == "" <==> Words(d.value) == []
  {
  }

  lemma EdgeAsks(t: Tree, dir: string, file: string, d: Directive, e: Visit)
    requires '/' !in file && file != "" && !EndsWith(dir, '/') && Tight(d.value)
    ensures e in EdgeOf(t, dir + "/" + file, d) <==> Asks(t, dir, d, e)
  {
    ValuedHasWords(d);
    NamedOptionReads(d.value, "-group");
    if d.value != "" {
      ResolvedIs(dir, file, Words(d.value)[0]);
      if OptionReads(Words(d.value), "-group", e.group) {
        OptionIsOne(Words(d.value), "-group", e.group, NamedOption(d.value, "-group"));
      }
    }
  }

  lemma {:induction false} EdgesAsk(t: Tree, dir: string, file: string, ds: seq<Directive>, e: Visit)
    requires '/' !in file && file != "" && !EndsWith(dir, '/') && forall d :: d in ds ==> Tight(d.value)
    ensures e in EdgesOf(t, dir + "/" + file, ds) <==> exists d :: d in ds && Asks(t, dir, d, e)
  {
    if ds != [] {
      assert ds[0] in ds;
      EdgeAsks(t, dir, file, ds[0], e);
      EdgesAsk(t, dir, file, ds[1..], e);
    }
  }

  lemma {:induction false} ValuesAreTight(lines: seq<string>)
    ensures forall d :: d in DirectivesFrom(lines) ==> Tight(d.value)
  {
    if lines != [] {
      ValuesAreTight(lines[1..]);
      var line := Trim(lines[0]);
      if WordLength(line) < |line| {
        TrimIsTight(line[WordLength(line) + 1..]);
      }
    }
  }

  /** A file leads to exactly the files its include lines ask for. */
  lemma FileLeadsTo(t: Tree, dir: string, file: string, e: Visit)
    requires '/' !in file && file != "" && !EndsWith(dir, '/')
    ensures e in Edges(t, dir + "/" + file) <==>
            exists d :: d in Directives(TextOf(t, dir + "/" + file)) && Asks(t, dir, d, e)
  {
    var text := TextOf(t, dir + "/" + file);
    ValuesAreTight(LogicalLines(text));
    EdgesAsk(t, dir, file, Directives(text), e);
  }

  // ---------- Who is walked ----------

  /** Whatever an emitted file asks for is emitted, under its own group unless another visit has its
      key, with the text of the file. */
  lemma AskedIsWalked(t: Tree, root: Visit, items: seq<ConfigSource>, s: ConfigSource, dir: string, file: string,
                      d: Directive, e: Visit)
    requires Finished(t, root, items) && s in items && s.path == dir + "/" + file
    requires '/' !in file && file != "" && !EndsWith(dir, '/') && d in Directives(s.text) && Asks(t, dir, d, e)
    ensures exists x :: x in items && VisitKey(VisitOf(x)) == VisitKey(e)
    ensures KeysTellApart(t, root) && e.path in t.texts ==> ConfigSource(e.path, t.texts[e.path], e.group) in items
  {
    var visited :| Walked(t, items, visited) && Explored(t, items, visited) && AllReached(t, root, items);
    FileLeadsTo(t, dir, file, e);
    WalkEmitsReachable(t, root, items);
    if KeysTellApart(t, root) {
      var n: nat :| Reaches(Includes(t), root, VisitOf(s), n);
      ConnectedOn(Includes(t), root, VisitOf(s), e, n);
      assert Reachable(t, root, e);
      assert SourceOf(t, e) in items;
    }
  }

  lemma {:induction false} TakenWereLed(t: Tree, todo: seq<Visit>, seen: set<string>, emitted: seq<Visit>,
                                        visited: set<string>, i: nat)
    requires Takes(t, todo, seen, emitted, visited) && i < |emitted|
    ensures emitted[i] in todo || exists j :: 0 <= j < i && emitted[i] in Edges(t, emitted[j].path)
    decreases |emitted|, |todo|
  {
    if VisitKey(todo[0]) in seen {
      TakenWereLed(t, todo[1..], seen, emitted, visited, i);
    } else if i > 0 {
      var v, rest := emitted[0], emitted[1..];
      TakenWereLed(t, Edges(t, v.path) + todo[1..], seen + {VisitKey(v)}, rest, visited, i - 1);
      if emitted[i] in Edges(t, v.path) {
        assert emitted[0] == v;
      } else if emitted[i] !in todo {
        var j :| 0 <= j < i - 1 && rest[i - 1] in Edges(t, rest[j].path);
        assert emitted[j + 1] == rest[j];
      }
    }
  }

  /** Every source but the first is asked for by one that comes before it. */
  lemma WalkedWasAsked(t: Tree, root: Visit, items: seq<ConfigSource>, i: nat) returns (j: nat)
    requires Finished(t, root, items) && 0 < i < |items|
    ensures j < i && VisitOf(items[i]) in Edges(t, items[j].path)
  {
    var visited :| Walked(t, items, visited) && Explored(t, items, visited) && AllReached(t, root, items) &&
                   Takes(t, [root], {}, VisitsOf(items), visited);
    var vs := VisitsOf(items);
    TakenWereLed(t, [root], {}, vs, visited, i);
    if vs[i] == root {
      assert false;
    }
    j :| 0 <= j < i && vs[i] in Edges(t, vs[j].path);
  }

  lemma OnlyEdge(t: Tree, base: string, d: Directive, e: Visit)
    requires Directives(TextOf(t, base)) == [d] && e in Edges(t, base)
    ensures Edges(t, base) == [e]
  {
    EdgesAlone(t, base, d);
  }

  /** A configuration file whose only line includes another file from its own directory: that file
      comes second. */
  lemma RelativeIncludeIsSecond(t: Tree, dir: string, file: string, value: string, group: Option<string>,
                                items: seq<ConfigSource>)
    requires '/' !in file && file != "" && !EndsWith(dir, '/')
    requires Finished(t, Visit(dir + "/" + file, None), items)
    requires Directives(TextOf(t, dir + "/" + file)) == [Directive("conf-file", value)]
    requires Words(value) != [] && !StartsWith(Words(value)[0], '/') && OptionReads(Words(value), "-group", group)
    requires dir + "/" + Words(value)[0] in t.links
    requires VisitKey(Visit(t.links[dir + "/" + Words(value)[0]], group)) != VisitKey(Visit(dir + "/" + file, None))
    ensures var path := t.links[dir + "/" + Words(value)[0]];
            |items| > 1 && items[1] == ConfigSource(path, if path in t.texts then t.texts[path] else "", group)
  {
    var root, d := Visit(dir + "/" + file, None), Directive("conf-file", value);
    var e := Visit(t.links[dir + "/" + Words(value)[0]], group);
    assert d in [d] && Asks(t, dir, d, e);
    FileLeadsTo(t, dir, file, e);
    OnlyEdge(t, root.path, d, e);
    SecondIs(t, root, items, e);
  }

  lemma SecondIs(t: Tree, root: Visit, items: seq<ConfigSource>, e: Visit)
    requires Finished(t, root, items) && Edges(t, root.path) == [e] && VisitKey(e) != VisitKey(root)
    ensures |items| > 1 && items[1] == SourceOf(t, e)
  {
    var visited :| Walked(t, items, visited) && Explored(t, items, visited) && AllReached(t, root, items) &&
                   Takes(t, [root], {}, VisitsOf(items), visited);
    var rest := VisitsOf(items)[1..];
    assert [root][1..] == [] && [e] + [] == [e];
    assert Takes(t, [e], {} + {VisitKey(root)}, rest, visited);
    assert rest[0] == e && VisitsOf(items)[1] == e;
    assert items[1] in items;
  }
}
