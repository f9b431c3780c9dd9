/** The depth-first walk over include files, which visits each path and group once. */
module IncludeWalk {
  import opened Common
  import opened Text
  import opened ConfigLines
  import opened ManagedAssets
  import opened ManagedBlock

  datatype ConfigSource = ConfigSource(path: string, text: string, implicitGroup: Option<string>)

  /** A canonical path and the group it is included for. */
  datatype Visit = Visit(path: string, group: Option<string>)

  /** The files that exist: every spelling with its canonical path, and the text of each of these. */
  datatype Tree = Tree(links: map<string, string>, texts: map<string, string>)

  function Canonical(t: Tree, path: string): string {
    if path in t.links then t.links[path] else path
  }

  function TextOf(t: Tree, path: string): string {
    if path in t.texts then t.texts[path] else ""
  }

  function Parent(path: string): string {
    var n := LastSlash(path);
    if path == "/" then "." else if n == |path| then "" else if n == 0 then "/" else path[..n]
  }

  function ResolveIncludePath(base: string, name: string): string {
    if StartsWith(name, '/') then name else PathJoin(Parent(base), name)
  }

  /** The include a line asks for, when its target exists. */
  function EdgeOf(t: Tree, base: string, d: Directive): seq<Visit> {
    if d.key != "conf-file" || d.value == "" then []
    else
      var path := ResolveIncludePath(base, FirstWord(d.value));
      if path in t.links then [Visit(t.links[path], NamedOption(d.value, "-group"))] else []
  }

  function EdgesOf(t: Tree, base: string, ds: seq<Directive>): seq<Visit> {
    if ds == [] then [] else EdgeOf(t, base, ds[0]) + EdgesOf(t, base, ds[1..])
  }

  function Edges(t: Tree, path: string): seq<Visit> {
    EdgesOf(t, path, Directives(TextOf(t, path)))
  }

  /** The string under which a visit is remembered. */
  function VisitKey(v: Visit): string {
    v.path + "::" + v.group.GetOr("")
  }

  function SourceOf(t: Tree, v: Visit): ConfigSource {
    ConfigSource(v.path, TextOf(t, v.path), v.group)
  }

  function VisitOf(s: ConfigSource): Visit {
    Visit(s.path, s.implicitGroup)
  }

  // ---------- Reachability ----------

  type Graph = string -> seq<Visit>

  function Includes(t: Tree): Graph {
    p => Edges(t, p)
  }

  ghost predicate Reaches(next: Graph, a: Visit, b: Visit, n: nat)
    decreases n
  {
    if n == 0 then a == b else exists c :: c in next(a.path) && Reaches(next, c, b, n - 1)
  }

  ghost predicate Connected(next: Graph, a: Visit, b: Visit) {
    exists n: nat :: Reaches(next, a, b, n)
  }

  ghost predicate Reachable(t: Tree, a: Visit, b: Visit) {
    Connected(Includes(t), a, b)
  }

  lemma ConnectedSelf(next: Graph, a: Visit)
    ensures Connected(next, a, a)
  {
    assert Reaches(next, a, a, 0);
  }

  lemma ConnectedThrough(next: Graph, a: Visit, c: Visit, b: Visit)
    requires c in next(a.path) && Connected(next, c, b)
    ensures Connected(next, a, b)
  {
    var n: nat :| Reaches(next, c, b, n);
    assert Reaches(next, a, b, n + 1);
  }

  lemma {:induction false} ConnectedOn(next: Graph, a: Visit, b: Visit, c: Visit, n: nat)
    requires Reaches(next, a, b, n) && c in next(b.path)
    ensures Connected(next, a, c)
    decreases n
  {
    if n == 0 {
      ConnectedSelf(next, c);
      ConnectedThrough(next, a, c, c);
    } else {
      var d :| d in next(a.path) && Reaches(next, d, b, n - 1);
      ConnectedOn(next, d, b, c, n - 1);
      ConnectedThrough(next, a, d, c);
    }
  }

  /** Every visit the walk can make: the root, and the targets of the include lines of all files. */
  function AllVisits(t: Tree, root: Visit): set<Visit> {
    {root} + set p, i | p in t.texts && 0 <= i < |Edges(t, p)| :: Edges(t, p)[i]
  }

  function Keys(vs: set<Visit>): set<string> {
    set v | v in vs :: VisitKey(v)
  }

  lemma EdgesAreVisits(t: Tree, root: Visit, path: string)
    ensures forall e :: e in Edges(t, path) ==> e in AllVisits(t, root)
  {
    if path !in t.texts {
      assert Directives("") == [];
    }
  }

  // ---------- Document order ----------

  /** Taking includes from a list, first to last: one with a new key is emitted, and what it includes
      comes before the rest of the list. */
  ghost predicate Takes(t: Tree, todo: seq<Visit>, seen: set<string>, emitted: seq<Visit>, visited: set<string>)
    decreases |emitted|, |todo|
  {
    if todo == [] then emitted == [] && visited == seen
    else if VisitKey(todo[0]) in seen then Takes(t, todo[1..], seen, emitted, visited)
    else
      && emitted != [] && emitted[0] == todo[0]
      && Takes(t, Edges(t, todo[0].path) + todo[1..], seen + {VisitKey(todo[0])}, emitted[1..], visited)
  }

  lemma {:induction false} TakesBoth(t: Tree, a: seq<Visit>, seen: set<string>, x: seq<Visit>, between: set<string>,
                                     b: seq<Visit>, y: seq<Visit>, visited: set<string>)
    requires Takes(t, a, seen, x, between) && Takes(t, b, between, y, visited)
    ensures Takes(t, a + b, seen, x + y, visited)
    decreases |x|, |a|
  {
    if a == [] {
      assert a + b == b && x + y == y;
    } else {
      var v, rest := a[0], a[1..];
      assert (a + b)[1..] == rest + b;
      if VisitKey(v) in seen {
        TakesBoth(t, rest, seen, x, between, b, y, visited);
      } else {
        TakesBoth(t, Edges(t, v.path) + rest, seen + {VisitKey(v)}, x[1..], between, b, y, visited);
        Reassociate(Edges(t, v.path), rest, b);
        assert (x + y)[1..] == x[1..] + y;
      }
    }
  }

  /** A visit with a new key is followed by all it includes. */
  lemma TakesNew(t: Tree, v: Visit, seen: set<string>, emitted: seq<Visit>, visited: set<string>)
    requires VisitKey(v) !in seen && Takes(t, Edges(t, v.path), seen + {VisitKey(v)}, emitted, visited)
    ensures Takes(t, [v], seen, [v] + emitted, visited)
  {
    assert [v][1..] == [] && ([v] + emitted)[1..] == emitted && Edges(t, v.path) + [] == Edges(t, v.path);
  }

  lemma TakesKnown(t: Tree, v: Visit, seen: set<string>)
    requires VisitKey(v) in seen
    ensures Takes(t, [v], seen, [], seen)
  {
    assert [v][1..] == [];
  }

  function VisitsOf(items: seq<ConfigSource>): seq<Visit> {
    seq(|items|, i requires 0 <= i < |items| => VisitOf(items[i]))
  }

  /** What was emitted since a point of the walk. */
  ghost predicate TookSince(t: Tree, todo: seq<Visit>, seen: set<string>, items: seq<ConfigSource>, from: nat,
                            visited: set<string>)
  {
    from <= |items| && Takes(t, todo, seen, VisitsOf(items[from..]), visited)
  }

  lemma TookNothing(t: Tree, seen: set<string>, items: seq<ConfigSource>)
    ensures TookSince(t, [], seen, items, |items|, seen)
  {
    assert VisitsOf(items[|items|..]) == [];
  }

  lemma TookKnown(t: Tree, v: Visit, seen: set<string>, items: seq<ConfigSource>)
    requires VisitKey(v) in seen
    ensures TookSince(t, [v], seen, items, |items|, seen)
  {
    TakesKnown(t, v, seen);
    assert VisitsOf(items[|items|..]) == [];
  }

  lemma TookNew(t: Tree, v: Visit, seen: set<string>, items: seq<ConfigSource>, from: nat, visited: set<string>)
    requires VisitKey(v) !in seen && from < |items| && VisitOf(items[from]) == v
    requires TookSince(t, Edges(t, v.path), seen + {VisitKey(v)}, items, from + 1, visited)
    ensures TookSince(t, [v], seen, items, from, visited)
  {
    TakesNew(t, v, seen, VisitsOf(items[from + 1..]), visited);
    assert VisitsOf(items[from..]) == [v] + VisitsOf(items[from + 1..]);
  }

  lemma TookBoth(t: Tree, a: seq<Visit>, b: seq<Visit>, seen: set<string>, before: seq<ConfigSource>,
                 between: set<string>, items: seq<ConfigSource>, from: nat, visited: set<string>)
    requires TookSince(t, a, seen, before, from, between) && before <= items
    requires TookSince(t, b, between, items, |before|, visited)
    ensures TookSince(t, a + b, seen, items, from, visited)
  {
    TakesBoth(t, a, seen, VisitsOf(before[from..]), between, b, VisitsOf(items[|before|..]), visited);
    assert VisitsOf(items[from..]) == VisitsOf(before[from..]) + VisitsOf(items[|before|..]);
  }

  // ---------- The walk ----------

  /** Sources for visits with different keys, all of them and only them marked as visited. */
  ghost predicate Walked(t: Tree, items: seq<ConfigSource>, visited: set<string>) {
    && (forall s :: s in items ==> s == SourceOf(t, VisitOf(s)) && VisitKey(VisitOf(s)) in visited)
    && (forall k :: k in visited ==> exists s :: s in items && VisitKey(VisitOf(s)) == k)
    && (forall i, j :: 0 <= i < j < |items| ==> VisitKey(VisitOf(items[i])) != VisitKey(VisitOf(items[j])))
  }

  /** Everything these sources include has been visited under its key. */
  ghost predicate Explored(t: Tree, items: seq<ConfigSource>, visited: set<string>) {
    forall s, e :: s in items && e in Edges(t, s.path) ==> VisitKey(e) in visited
  }

  ghost predicate AllReached(t: Tree, from: Visit, items: seq<ConfigSource>) {
    forall s :: s in items ==> Reachable(t, from, VisitOf(s))
  }

  // ---------- Steps of the walk ----------

  lemma {:induction false} EdgesAppend(t: Tree, base: string, a: seq<Directive>, b: seq<Directive>)
    ensures EdgesOf(t, base, a + b) == EdgesOf(t, base, a) + EdgesOf(t, base, b)
  {
    if a == [] {
      assert a + b == b;
    } else {
      assert (a + b)[1..] == a[1..] + b;
      EdgesAppend(t, base, a[1..], b);
      Reassociate(EdgeOf(t, base, a[0]), EdgesOf(t, base, a[1..]), EdgesOf(t, base, b));
    }
  }

  function LineEdge(t: Tree, base: string, line: string): seq<Visit> {
    if Silent(line) then [] else EdgeOf(t, base, DirectiveOf(Trim(line)))
  }

  lemma LineEdges(t: Tree, base: string, lines: seq<string>, i: nat)
    requires i < |lines|
    ensures EdgesOf(t, base, DirectivesFrom(lines[..i + 1])) ==
            EdgesOf(t, base, DirectivesFrom(lines[..i])) + LineEdge(t, base, lines[i])
  {
    var last := [lines[i]];
    assert lines[..i + 1] == lines[..i] + last && last[1..] == [];
    DirectivesAppend(lines[..i], last);
    EdgesAppend(t, base, DirectivesFrom(lines[..i]), DirectivesFrom(last));
    if !Silent(lines[i]) {
      var ds := [DirectiveOf(Trim(lines[i]))];
      assert DirectivesFrom(last) == ds + [] == ds && ds[1..] == [];
      assert EdgesOf(t, base, ds) == EdgeOf(t, base, ds[0]) + [];
    }
  }

  lemma EdgesAlone(t: Tree, base: string, d: Directive)
    ensures EdgesOf(t, base, [d]) == EdgeOf(t, base, d)
  {
    var ds := [d];
    assert ds[1..] == [];
    assert EdgeOf(t, base, d) + [] == EdgeOf(t, base, d);
  }

  lemma InMiddle<T>(a: seq<T>, b: seq<T>, c: seq<T>, x: T)
    requires x in b
    ensures x in a + b + c
  {
  }

  lemma EdgesAround(t: Tree, path: string, lines: seq<string>, i: nat)
    requires i < |lines|
    ensures EdgesOf(t, path, DirectivesFrom(lines)) ==
            EdgesOf(t, path, DirectivesFrom(lines[..i])) + LineEdge(t, path, lines[i]) +
            EdgesOf(t, path, DirectivesFrom(lines[i + 1..]))
  {
    var init, rest := lines[..i + 1], lines[i + 1..];
    assert lines == init + rest;
    LineEdges(t, path, lines, i);
    DirectivesAppend(init, rest);
    EdgesAppend(t, path, DirectivesFrom(init), DirectivesFrom(rest));
  }

  lemma LineEdgeAmong(t: Tree, path: string, lines: seq<string>, i: nat, e: Visit)
    requires i < |lines| && e in LineEdge(t, path, lines[i])
    ensures e in EdgesOf(t, path, DirectivesFrom(lines))
  {
    EdgesAround(t, path, lines, i);
    InMiddle(EdgesOf(t, path, DirectivesFrom(lines[..i])), LineEdge(t, path, lines[i]),
             EdgesOf(t, path, DirectivesFrom(lines[i + 1..])), e);
  }

  lemma LineIsEdge(t: Tree, path: string, lines: seq<string>, i: nat, e: Visit)
    requires i < |lines| && lines == LogicalLines(TextOf(t, path)) && e in LineEdge(t, path, lines[i])
    ensures e in Edges(t, path)
  {
    LineEdgeAmong(t, path, lines, i, e);
  }

  lemma EdgeReached(t: Tree, v: Visit, e: Visit, items: seq<ConfigSource>)
    requires e in Edges(t, v.path) && AllReached(t, e, items)
    ensures AllReached(t, v, items)
  {
    forall s | s in items ensures Reachable(t, v, VisitOf(s)) {
      ConnectedThrough(Includes(t), v, e, VisitOf(s));
    }
  }

  lemma ReachedJoin(t: Tree, v: Visit, from: nat, before: seq<ConfigSource>, after: seq<ConfigSource>)
    requires from <= |before| && before <= after
    requires AllReached(t, v, before[from..]) && AllReached(t, v, after[|before|..])
    ensures AllReached(t, v, after[from..])
  {
    forall s | s in after[from..] ensures Reachable(t, v, VisitOf(s)) {
      SplitMember(before, after, from, s);
    }
  }

  lemma SplitMember<T>(before: seq<T>, after: seq<T>, from: nat, x: T)
    requires from <= |before| && before <= after && x in after[from..]
    ensures x in before[from..] || x in after[|before|..]
  {
    assert after[from..] == before[from..] + after[|before|..];
  }

  lemma NewAreClosed(t: Tree, from: nat, before: seq<ConfigSource>, after: seq<ConfigSource>, seen: set<string>,
                     visited: set<string>)
    requires from <= |before| && before <= after && seen <= visited
    requires Explored(t, before[from..], seen) && Explored(t, after[|before|..], visited)
    ensures Explored(t, after[from..], visited)
  {
    forall s, e | s in after[from..] && e in Edges(t, s.path) ensures VisitKey(e) in visited {
      SplitMember(before, after, from, s);
    }
  }

  lemma RootIsClosed(t: Tree, v: Visit, items: seq<ConfigSource>, visited: set<string>)
    requires |items| > 0 && items[0] == SourceOf(t, v) && Explored(t, items[1..], visited)
    requires Seen(Edges(t, v.path), visited)
    ensures Explored(t, items, visited)
  {
    forall s, e | s in items && e in Edges(t, s.path) ensures VisitKey(e) in visited {
      assert s == items[0] || s in items[1..];
    }
  }

  /** A source that was pushed, and then everything its lines lead to. */
  lemma RootIsDone(t: Tree, v: Visit, before: seq<ConfigSource>, after: seq<ConfigSource>, visited: set<string>)
    requires before + [SourceOf(t, v)] <= after && Seen(Edges(t, v.path), visited)
    requires AllReached(t, v, after[|before| + 1..]) && Explored(t, after[|before| + 1..], visited)
    ensures AllReached(t, v, after[|before|..]) && Explored(t, after[|before|..], visited)
  {
    var items := after[|before|..];
    assert items[1..] == after[|before| + 1..] && items[0] == SourceOf(t, v);
    ConnectedSelf(Includes(t), v);
    RootIsClosed(t, v, items, visited);
    forall s | s in items ensures Reachable(t, v, VisitOf(s)) {
      assert s == items[0] || s in items[1..];
    }
  }

  lemma PushWalked(t: Tree, items: seq<ConfigSource>, visited: set<string>, v: Visit)
    requires Walked(t, items, visited) && VisitKey(v) !in visited
    ensures Walked(t, items + [SourceOf(t, v)], visited + {VisitKey(v)})
  {
    var s := SourceOf(t, v);
    assert VisitOf(s) == v && s in items + [s];
    forall k | k in visited + {VisitKey(v)}
      ensures exists x :: x in items + [s] && VisitKey(VisitOf(x)) == k
    {
      if k in visited {
        var x :| x in items && VisitKey(VisitOf(x)) == k;
        assert x in items + [s];
      }
    }
  }

  ghost predicate Seen(edges: seq<Visit>, visited: set<string>) {
    forall e :: e in edges ==> VisitKey(e) in visited
  }

  lemma SeenBoth(edges: seq<Visit>, more: seq<Visit>, seen: set<string>, visited: set<string>)
    requires Seen(edges, seen) && seen <= visited && Seen(more, visited)
    ensures Seen(edges + more, visited)
  {
  }

  /** One more line was followed: everything the lines so far include was explored, in order. */
  lemma NextFollowed(t: Tree, v: Visit, lines: seq<string>, i: nat, first: set<string>, before: seq<ConfigSource>,
                     seen: set<string>, items: seq<ConfigSource>, start: nat, visited: set<string>)
    requires i < |lines| && start <= |before| && before <= items && seen <= visited
    requires AllReached(t, v, before[start..]) && Explored(t, before[start..], seen)
    requires var edges := EdgesOf(t, v.path, DirectivesFrom(lines[..i]));
             Seen(edges, seen) && TookSince(t, edges, first, before, start, seen)
    requires AllReached(t, v, items[|before|..]) && Explored(t, items[|before|..], visited)
    requires var edges := LineEdge(t, v.path, lines[i]);
             Seen(edges, visited) && TookSince(t, edges, seen, items, |before|, visited)
    ensures AllReached(t, v, items[start..]) && Explored(t, items[start..], visited)
    ensures var edges := EdgesOf(t, v.path, DirectivesFrom(lines[..i + 1]));
            Seen(edges, visited) && TookSince(t, edges, first, items, start, visited)
  {
    var edges, more := EdgesOf(t, v.path, DirectivesFrom(lines[..i])), LineEdge(t, v.path, lines[i]);
    LineEdges(t, v.path, lines, i);
    SeenBoth(edges, more, seen, visited);
    TookBoth(t, edges, more, first, before, seen, items, start, visited);
    ReachedJoin(t, v, start, before, items);
    NewAreClosed(t, start, before, items, seen, visited);
  }

  class SourceWalker {
    var visited: set<string>
    var items: seq<ConfigSource>

    constructor ()
      ensures visited == {} && items == []
    {
      visited := {};
      items := [];
    }

    /** One file, and then the files it includes, unless it was visited before. */
    method CollectSource(t: Tree, path: string, group: Option<string>, ghost root: Visit)
      requires Walked(t, items, visited) && Visit(Canonical(t, path), group) in AllVisits(t, root)
      modifies this
      ensures Walked(t, items, visited)
      ensures old(items) <= items && old(visited) <= visited
      ensures var v := Visit(Canonical(t, path), group);
              && VisitKey(v) in visited
              && AllReached(t, v, items[|old(items)|..])
              && (VisitKey(v) !in old(visited) ==> |items| > |old(items)| && items[|old(items)|] == SourceOf(t, v))
      ensures Explored(t, items[|old(items)|..], visited)
      ensures TookSince(t, [Visit(Canonical(t, path), group)], old(visited), items, |old(items)|, visited)
      decreases Keys(AllVisits(t, root)) - visited, 0
    {
      var canonical := Canonical(t, path);
      ghost var v := Visit(canonical, group);
      var key := VisitKey(Visit(canonical, group));
      if key in visited {
        assert items[|items|..] == [];
        TookKnown(t, v, visited, items);
        return;
      }
      ghost var before, seen := items, visited;
      PushWalked(t, items, visited, v);
      visited := visited + {key};
      var text := TextOf(t, canonical);
      items := items + [ConfigSource(canonical, text, group)];
      FollowLines(t, Visit(canonical, group), text, root);
      RootIsDone(t, v, before, items, visited);
      TookNew(t, v, seen, items, |before|, visited);
    }

    method FollowLines(t: Tree, v: Visit, text: string, ghost root: Visit)
      requires Walked(t, items, visited) && text == TextOf(t, v.path)
      modifies this
      ensures Walked(t, items, visited)
      ensures old(items) <= items && old(visited) <= visited
      ensures Seen(Edges(t, v.path), visited)
      ensures AllReached(t, v, items[|old(items)|..]) && Explored(t, items[|old(items)|..], visited)
      ensures TookSince(t, Edges(t, v.path), old(visited), items, |old(items)|, visited)
      decreases Keys(AllVisits(t, root)) - visited, 2
    {
      ghost var start := |items|;
      var lines := CollectLogicalLines(text);
      assert lines[..0] == [] && items[start..] == [];
      TookNothing(t, visited, items);
      for i := 0 to |lines|
        invariant Walked(t, items, visited) && old(visited) <= visited && old(items) <= items
        invariant AllReached(t, v, items[start..]) && Explored(t, items[start..], visited)
        invariant Seen(EdgesOf(t, v.path, DirectivesFrom(lines[..i])), visited)
        invariant TookSince(t, EdgesOf(t, v.path, DirectivesFrom(lines[..i])), old(visited), items, start, visited)
      {
        ghost var before, seen := items, visited;
        FollowLine(t, v, lines[i], root, lines, i);
        NextFollowed(t, v, lines, i, old(visited), before, seen, items, start, visited);
      }
      assert lines[..|lines|] == lines;
    }

    /** The include a line asks for, if it asks for one and the target exists. */
    method FollowLine(t: Tree, v: Visit, line: string, ghost root: Visit, ghost lines: seq<string>, ghost i: nat)
      requires Walked(t, items, visited)
      requires i < |lines| && lines[i] == line && lines == LogicalLines(TextOf(t, v.path))
      modifies this
      ensures Walked(t, items, visited)
      ensures old(items) <= items && old(visited) <= visited
      ensures Seen(LineEdge(t, v.path, line), visited)
      ensures AllReached(t, v, items[|old(items)|..]) && Explored(t, items[|old(items)|..], visited)
      ensures TookSince(t, LineEdge(t, v.path, line), old(visited), items, |old(items)|, visited)
      decreases Keys(AllVisits(t, root)) - visited, 1
    {
      assert items[|items|..] == [];
      TookNothing(t, visited, items);
      var trimmed := Trim(line);
      if trimmed == "" || IsComment(trimmed) {
        return;
      }
      var d := Directive(KeyOf(trimmed), ValueOf(trimmed));
      if d.key != "conf-file" || d.value == "" {
        return;
      }
      var includePath := ResolveIncludePath(v.path, FirstWord(d.value));
      var includeGroup := FindNamedOption(d.value, "-group");
      if includePath in t.links {
        ghost var e, before := Visit(t.links[includePath], includeGroup), items;
        assert LineEdge(t, v.path, line) == [e];
        LineIsEdge(t, v.path, lines, i, e);
        EdgesAreVisits(t, root, v.path);
        CollectSource(t, includePath, includeGroup, root);
        EdgeReached(t, v, e, items[|before|..]);
      }
    }
  }

  // ---------- What the walk emits ----------

  /** What a finished walk is known to hold. */
  ghost predicate Finished(t: Tree, root: Visit, items: seq<ConfigSource>) {
    && items != [] && items[0] == SourceOf(t, root)
    && exists visited ::
         && Walked(t, items, visited) && Explored(t, items, visited) && AllReached(t, root, items)
         && Takes(t, [root], {}, VisitsOf(items), visited)
  }

  method CollectConfigSources(t: Tree, configFile: string) returns (items: seq<ConfigSource>)
    ensures Finished(t, Visit(Canonical(t, configFile), None), items)
  {
    ghost var root := Visit(Canonical(t, configFile), None);
    var walker := new SourceWalker();
    walker.CollectSource(t, configFile, None, root);
    items := walker.items;
    assert items[0..] == items;
    assert Walked(t, items, walker.visited);
  }

  /** No two visits that can be reached share a key. */
  ghost predicate KeysTellApart(t: Tree, root: Visit) {
    Apart(Includes(t), root)
  }

  ghost predicate EmitsReachable(t: Tree, root: Visit, items: seq<ConfigSource>) {
    forall v :: Reachable(t, root, v) <==> SourceOf(t, v) in items
  }

  /** Every edge leads to a visit that shares its key with one that was emitted. */
  ghost predicate Covers(next: Graph, emitted: set<Visit>) {
    forall a, e :: a in emitted && e in next(a.path) ==> exists s :: s in emitted && VisitKey(s) == VisitKey(e)
  }

  ghost predicate Apart(next: Graph, root: Visit) {
    forall a, b :: Connected(next, root, a) && Connected(next, root, b) && VisitKey(a) == VisitKey(b) ==> a == b
  }

  lemma {:induction false} EmitsOn(next: Graph, root: Visit, emitted: set<Visit>, a: Visit, b: Visit, n: nat)
    requires Covers(next, emitted) && (forall s :: s in emitted ==> Connected(next, root, s)) && Apart(next, root)
    requires a in emitted && Reaches(next, a, b, n)
    ensures b in emitted
    decreases n
  {
    if n > 0 {
      var c :| c in next(a.path) && Reaches(next, c, b, n - 1);
      var s :| s in emitted && VisitKey(s) == VisitKey(c);
      var m: nat :| Reaches(next, root, a, m);
      ConnectedOn(next, root, a, c, m);
      EmitsOn(next, root, emitted, c, b, n - 1);
    }
  }

  function Emitted(items: seq<ConfigSource>): set<Visit> {
    set s | s in items :: VisitOf(s)
  }

  lemma WalkCovers(t: Tree, items: seq<ConfigSource>, visited: set<string>)
    requires Walked(t, items, visited) && Explored(t, items, visited)
    ensures Covers(Includes(t), Emitted(items))
  {
    forall a, e | a in Emitted(items) && e in Includes(t)(a.path)
      ensures exists s :: s in Emitted(items) && VisitKey(s) == VisitKey(e)
    {
      var x :| x in items && VisitOf(x) == a;
      assert VisitKey(e) in visited;
      var y :| y in items && VisitKey(VisitOf(y)) == VisitKey(e);
      assert VisitOf(y) in Emitted(items);
    }
  }

  lemma EmittedApart(t: Tree, items: seq<ConfigSource>, visited: set<string>, a: Visit, b: Visit)
    requires Walked(t, items, visited) && SourceOf(t, a) in items && SourceOf(t, b) in items &&
             VisitKey(a) == VisitKey(b)
    ensures a == b
  {
    var i :| 0 <= i < |items| && items[i] == SourceOf(t, a);
    var j :| 0 <= j < |items| && items[j] == SourceOf(t, b);
    assert VisitOf(items[i]) == a && VisitOf(items[j]) == b;
  }

  /** The walk starts with the root, repeats nothing, and emits exactly the path and group pairs that
      can be reached, if and only if no two of these share a key. */
  lemma WalkEmitsReachable(t: Tree, root: Visit, items: seq<ConfigSource>)
    requires Finished(t, root, items)
    ensures items[0] == SourceOf(t, root)
    ensures forall i, j :: 0 <= i < j < |items| ==> VisitOf(items[i]) != VisitOf(items[j])
    ensures EmitsReachable(t, root, items) <==> KeysTellApart(t, root)
  {
    var visited :| Walked(t, items, visited) && Explored(t, items, visited) && AllReached(t, root, items);
    if KeysTellApart(t, root) {
      assert VisitOf(items[0]) == root;
      forall v ensures Reachable(t, root, v) <==> SourceOf(t, v) in items {
        assert VisitOf(SourceOf(t, v)) == v;
        if Reachable(t, root, v) {
          var n: nat :| Reaches(Includes(t), root, v, n);
          WalkCovers(t, items, visited);
          EmitsOn(Includes(t), root, Emitted(items), root, v, n);
        }
      }
    }
    if EmitsReachable(t, root, items) {
      forall a, b | Reachable(t, root, a) && Reachable(t, root, b) && VisitKey(a) == VisitKey(b) ensures a == b {
        EmittedApart(t, items, visited, a, b);
      }
    }
  }

  lemma {:induction false} TakesOnce(t: Tree, todo: seq<Visit>, seen: set<string>, x: seq<Visit>, v: set<string>,
                                     y: seq<Visit>, w: set<string>)
    requires Takes(t, todo, seen, x, v) && Takes(t, todo, seen, y, w)
    ensures x == y
    decreases |x|, |todo|
  {
    if todo != [] {
      if VisitKey(todo[0]) in seen {
        TakesOnce(t, todo[1..], seen, x, v, y, w);
      } else {
        TakesOnce(t, Edges(t, todo[0].path) + todo[1..], seen + {VisitKey(todo[0])}, x[1..], v, y[1..], w);
        assert x == [x[0]] + x[1..] && y == [y[0]] + y[1..];
      }
    }
  }

  /** The tree and the root determine the sources and their order. */
  lemma WalkIsDetermined(t: Tree, root: Visit, items: seq<ConfigSource>, others: seq<ConfigSource>)
    requires Finished(t, root, items) && Finished(t, root, others)
    ensures items == others
  {
    var v :| Walked(t, items, v) && Explored(t, items, v) && AllReached(t, root, items) &&
             Takes(t, [root], {}, VisitsOf(items), v);
    var w :| Walked(t, others, w) && Explored(t, others, w) && AllReached(t, root, others) &&
             Takes(t, [root], {}, VisitsOf(others), w);
    TakesOnce(t, [root], {}, VisitsOf(items), v, VisitsOf(others), w);
    assert |items| == |VisitsOf(items)| == |others|;
    forall i | 0 <= i < |items| ensures items[i] == others[i] {
      assert items[i] in items && others[i] in others;
      assert VisitsOf(items)[i] == VisitsOf(others)[i];
    }
  }

  // ---------- When keys tell visits apart ----------

  predicate PlainVisit(v: Visit) {
    (v.group.Some? ==> v.group.value != "") && !EndsWith(v.path, ':')
  }

  /** Two colons that start within a path lie in it, or its last character is one of them. */
  lemma ColonsWithin(path: string, group: string, m: nat)
    requires m < |path| && (path + "::" + group)[m] == (path + "::" + group)[m + 1] == ':'
    ensures !Lacks(path, "::") || EndsWith(path, ':')
  {
    if m + 1 < |path| {
      assert path[m..m + 2] == [path[m], path[m + 1]] == "::";
      assert At(path, "::", m);
    }
  }

  lemma KeysOfPlain(a: Visit, b: Visit)
    requires PlainVisit(a) && PlainVisit(b) && Lacks(a.path, "::") && Lacks(b.path, "::")
    requires VisitKey(a) == VisitKey(b) && |a.path| <= |b.path|
    ensures a == b
  {
    var m := |a.path|;
    var key := VisitKey(a);
    assert key[m] == ':' && key[m + 1] == ':';
    if m < |b.path| {
      ColonsWithin(b.path, b.group.GetOr(""), m);
    } else {
      assert a.path == key[..m] == b.path;
      assert key[m + 2..] == a.group.GetOr("") == b.group.GetOr("");
    }
  }

  lemma {:induction false} OptionIsToken(tokens: seq<string>, name: string)
    ensures OptionAfter(tokens, name).Some? ==> OptionAfter(tokens, name).value in tokens
  {
    if tokens != [] && tokens[0] != name {
      OptionIsToken(tokens[1..], name);
    }
  }

  lemma {:induction false} EdgeIsPlain(t: Tree, base: string, ds: seq<Directive>, e: Visit)
    requires e in EdgesOf(t, base, ds)
    ensures e.path in t.links.Values && (e.group.Some? ==> e.group.value != "")
  {
    if e in EdgeOf(t, base, ds[0]) {
      WordsAreWords(ds[0].value);
      OptionIsToken(Words(ds[0].value), "-group");
    } else {
      EdgeIsPlain(t, base, ds[1..], e);
    }
  }

  /** What holds of the targets of all edges holds of everything but the start. */
  lemma {:induction false} ReachedIsTarget(next: Graph, a: Visit, b: Visit, n: nat, target: Visit -> bool)
    requires Reaches(next, a, b, n)
    requires forall p, e :: e in next(p) ==> target(e)
    ensures b == a || target(b)
    decreases n
  {
    if n > 0 {
      var c :| c in next(a.path) && Reaches(next, c, b, n - 1);
      ReachedIsTarget(next, c, b, n - 1, target);
    }
  }

  function LinkTarget(t: Tree): Visit -> bool {
    (v: Visit) => v.path in t.links.Values && (v.group.Some? ==> v.group.value != "")
  }

  /** Keys tell visits apart when no canonical path holds a double colon or ends in a colon. */
  lemma PlainPathsTellApart(t: Tree, root: Visit)
    requires root.group == None && Lacks(root.path, "::") && !EndsWith(root.path, ':')
    requires forall p :: p in t.links.Values ==> Lacks(p, "::") && !EndsWith(p, ':')
    ensures KeysTellApart(t, root)
  {
    forall p, e | e in Includes(t)(p) ensures LinkTarget(t)(e) {
      EdgeIsPlain(t, p, Directives(TextOf(t, p)), e);
    }
    forall a, b | Reachable(t, root, a) && Reachable(t, root, b) && VisitKey(a) == VisitKey(b) ensures a == b {
      var n: nat :| Reaches(Includes(t), root, a, n);
      var m: nat :| Reaches(Includes(t), root, b, m);
      ReachedIsTarget(Includes(t), root, a, n, LinkTarget(t));
      ReachedIsTarget(Includes(t), root, b, m, LinkTarget(t));
      if |a.path| <= |b.path| {
        KeysOfPlain(a, b);
      } else {
        KeysOfPlain(b, a);
      }
    }
  }

  // ---------- Two visits with one key ----------

  /** Of two includes with one key a walk emits at most one. */
  lemma CollidingVisitIsSkipped(t: Tree, root: Visit, items: seq<ConfigSource>, a: Visit, b: Visit)
    requires Finished(t, root, items) && a in Edges(t, root.path) && b in Edges(t, root.path)
    requires a != b && VisitKey(a) == VisitKey(b)
    ensures Reachable(t, root, a) && Reachable(t, root, b)
    ensures SourceOf(t, a) !in items || SourceOf(t, b) !in items
  {
    ConnectedSelf(Includes(t), a);
    ConnectedSelf(Includes(t), b);
    ConnectedThrough(Includes(t), root, a, a);
    ConnectedThrough(Includes(t), root, b, b);
    var visited :| Walked(t, items, visited) && Explored(t, items, visited) && AllReached(t, root, items);
    if SourceOf(t, a) in items && SourceOf(t, b) in items {
      EmittedApart(t, items, visited, a, b);
    }
  }

  function CollidingLines(): seq<string> {
    ["conf-file" + " " + "/a -group x::", "conf-file" + " " + "/a::x"]
  }

  function CollidingTree(): Tree {
    Tree(map["/r" := "/r", "/a" := "/a", "/a::x" := "/a::x"],
         map["/r" := Unlines(CollidingLines()), "/a" := "", "/a::x" := ""])
  }

  lemma TwoLines(a: string, b: string, x: Directive, y: Directive)
    requires Rendered(a) && !Silent(a) && DirectiveOf(Trim(a)) == x && Rendered(b) && !Silent(b) &&
             DirectiveOf(Trim(b)) == y
    ensures Directives(Unlines([a, b])) == [x, y]
  {
    DirectivesOfRendered([a, b]);
    assert [a, b][1..] == [b] && [b][1..] == [];
    assert Spoken([b]) == [y] + [];
  }

  lemma CollidingDirectives()
    ensures Directives(Unlines(CollidingLines())) ==
            [Directive("conf-file", "/a -group x::"), Directive("conf-file", "/a::x")]
  {
    ConfFileLine("/a -group x::");
    ConfFileLine("/a::x");
    TwoLines(CollidingLines()[0], CollidingLines()[1], Directive("conf-file", "/a -group x::"),
             Directive("conf-file", "/a::x"));
  }

  lemma CollidingValues()
    ensures FirstWord("/a -group x::") == "/a" && NamedOption("/a -group x::", "-group") == Some("x::")
    ensures FirstWord("/a::x") == "/a::x" && NamedOption("/a::x", "-group") == None
  {
    var words := ["/a", "-group", "x::"];
    assert IsWord("/a") && IsWord("-group") && IsWord("x::") && IsWord("/a::x");
    assert words[1..] == ["-group", "x::"] && ["-group", "x::"][1..] == ["x::"];
    assert Join(words, " ") == "/a" + " " + ("-group" + " " + "x::") == "/a -group x::";
    WordsOfJoin(words);
    assert "/a"[0] != "-group"[0];
    assert OptionAfter(words, "-group") == OptionAfter(words[1..], "-group") == Some("x::");
    assert Join(["/a::x"], " ") == "/a::x";
    WordsOfJoin(["/a::x"]);
    assert ["/a::x"][1..] == [] && "/a::x"[0] != "-group"[0];
  }

  lemma EdgeIs(t: Tree, base: string, value: string, name: string, group: Option<string>)
    requires value != "" && FirstWord(value) == name && NamedOption(value, "-group") == group
    requires StartsWith(name, '/') && name in t.links && t.links[name] == name
    ensures EdgeOf(t, base, Directive("conf-file", value)) == [Visit(name, group)]
  {
  }

  lemma TwoEdges(t: Tree, base: string, a: Directive, b: Directive, x: Visit, y: Visit)
    requires EdgeOf(t, base, a) == [x] && EdgeOf(t, base, b) == [y]
    ensures EdgesOf(t, base, [a, b]) == [x, y]
  {
    assert [a, b][1..] == [b] && [b][1..] == [];
    assert EdgesOf(t, base, [b]) == [y] + [];
  }

  lemma CollidingLinks()
    ensures var t := CollidingTree();
            && "/a" in t.links && t.links["/a"] == "/a" && "/a::x" in t.links && t.links["/a::x"] == "/a::x"
            && TextOf(t, "/r") == Unlines(CollidingLines())
  {
    assert |"/a"| != |"/a::x"| && "/r"[1] != "/a"[1] && |"/r"| != |"/a::x"|;
  }

  lemma CollidingEdges(t: Tree)
    requires t == CollidingTree()
    ensures Edges(t, "/r") == [Visit("/a", Some("x::")), Visit("/a::x", None)]
  {
    CollidingDirectives();
    CollidingValues();
    CollidingLinks();
    EdgeIs(t, "/r", "/a -group x::", "/a", Some("x::"));
    EdgeIs(t, "/r", "/a::x", "/a::x", None);
    TwoEdges(t, "/r", Directive("conf-file", "/a -group x::"), Directive("conf-file", "/a::x"),
             Visit("/a", Some("x::")), Visit("/a::x", None));
  }

  lemma SkippedOfTwo(t: Tree, root: Visit, items: seq<ConfigSource>, a: Visit, b: Visit)
    requires Finished(t, root, items) && Edges(t, root.path) == [a, b] && a != b && VisitKey(a) == VisitKey(b)
    ensures Reachable(t, root, a) && Reachable(t, root, b)
    ensures SourceOf(t, a) !in items || SourceOf(t, b) !in items
  {
    assert [a, b][0] == a && [a, b][1] == b;
    CollidingVisitIsSkipped(t, root, items, a, b);
  }

  lemma SameKey()
    ensures Visit("/a", Some("x::")) != Visit("/a::x", None)
    ensures VisitKey(Visit("/a", Some("x::"))) == VisitKey(Visit("/a::x", None))
  {
    assert "/a" + "::" + "x::" == "/a::x::" == "/a::x" + "::" + "";
  }

  /** Two files that are both included, one of which no walk emits. */
  lemma KeysCanCollide(t: Tree, items: seq<ConfigSource>)
    requires t == CollidingTree() && Finished(t, Visit("/r", None), items)
    ensures var root, a, b := Visit("/r", None), Visit("/a", Some("x::")), Visit("/a::x", None);
            && Reachable(t, root, a) && Reachable(t, root, b)
            && (SourceOf(t, a) !in items || SourceOf(t, b) !in items)
  {
    CollidingEdges(t);
    SameKey();
    SkippedOfTwo(t, Visit("/r", None), items, Visit("/a", Some("x::")), Visit("/a::x", None));
  }
}
