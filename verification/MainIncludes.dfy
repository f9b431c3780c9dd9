/** What the main file says after its block was put in place: what it said around the old block, and
    an include for every page. */
module MainIncludes {
  import opened Text
  import opened ConfigLines
  import opened ManagedBlock
  import opened EffectivePreview

  predicate Spaceless(s: string) {
    forall c :: c in s ==> !IsSpace(c)
  }

  function Include(dir: string, name: string): Directive {
    Directive("conf-file", PathJoin(dir, name))
  }

  /** Every page by its name, in the order of the block. */
  function PageIncludes(dir: string): seq<Directive> {
    [Include(dir, "10-basic.conf"), Include(dir, "20-upstreams.conf"), Include(dir, "30-cache.conf"),
     Include(dir, "60-sets.conf"), Include(dir, "40-nameserver.conf"), Include(dir, "50-rules.conf"),
     Include(dir, "70-logging.conf"), Include(dir, "80-network.conf")]
  }

  lemma FirstNamesAreWords()
    ensures IsWord(SERVICE) && IsWord(UPSTREAMS) && IsWord(PERFORMANCE)
  {
  }

  lemma MiddleNamesAreWords()
    ensures IsWord(SETS) && IsWord(ROUTING) && IsWord(RULES)
  {
  }

  lemma LastNamesAreWords()
    ensures IsWord(LOGGING) && IsWord(NETWORK)
  {
  }

  lemma NamesAreWords(name: string)
    requires name in ManagedFileNames()
    ensures IsWord(name) && !EndsWith(name, '\\')
  {
    FirstNamesAreWords();
    MiddleNamesAreWords();
    LastNamesAreWords();
    NamesEnd(name);
  }

  lemma NamesEnd(name: string)
    requires name in ManagedFileNames()
    ensures name != "" && name[|name| - 1] == 'f'
  {
  }

  lemma PathIsWord(dir: string, name: string)
    requires Spaceless(dir) && IsWord(name) && !EndsWith(name, '\\')
    ensures IsWord(PathJoin(dir, name)) && !EndsWith(PathJoin(dir, name), '\\')
  {
  }

  lemma IncludeLineSays(dir: string, name: string)
    requires Spaceless(dir) && name in ManagedFileNames()
    ensures var line := "conf-file " + PathJoin(dir, name);
            Rendered(line) && !Silent(line) && DirectiveOf(Trim(line)) == Include(dir, name)
  {
    var path := PathJoin(dir, name);
    NamesAreWords(name);
    PathIsWord(dir, name);
    WordIsTight(path);
    TrimOfTight(path);
    assert IsSpace('\n');
    ConfFileLine(path);
    assert "conf-file " + path == "conf-file" + " " + path;
  }

  function IncludesOf(dir: string, names: seq<string>): seq<Directive> {
    if names == [] then [] else [Include(dir, names[0])] + IncludesOf(dir, names[1..])
  }

  lemma {:induction false} IncludeLinesSay(dir: string, names: seq<string>)
    requires Spaceless(dir) && forall n :: n in names ==> n in ManagedFileNames()
    ensures Spoken(IncludeLines(dir, names)) == IncludesOf(dir, names)
    ensures forall l :: l in IncludeLines(dir, names) ==> Rendered(l)
  {
    if names != [] {
      assert names[0] in names;
      IncludeLineSays(dir, names[0]);
      IncludeLinesSay(dir, names[1..]);
    }
  }

  lemma MarkersAreSilent()
    ensures Rendered(BEGIN) && Silent(BEGIN) && Rendered(END) && Silent(END)
  {
    MarkerShapes();
    TrimOfTight(BEGIN);
    TrimOfTight(END);
  }

  lemma {:induction false} IncludesAt(dir: string, names: seq<string>, i: nat)
    requires i < |names|
    ensures |IncludesOf(dir, names)| == |names| && IncludesOf(dir, names)[i] == Include(dir, names[i])
  {
    if |names| > 1 {
      IncludesAt(dir, names[1..], if i > 0 then i - 1 else 0);
    }
  }

  lemma AllNames(dir: string)
    ensures IncludesOf(dir, ManagedFileNames()) == PageIncludes(dir)
  {
    var names := ManagedFileNames();
    IncludesAt(dir, names, 0);
    forall i | 0 <= i < 8 ensures IncludesOf(dir, names)[i] == PageIncludes(dir)[i] {
      IncludesAt(dir, names, i);
    }
  }

  lemma SilentSays(line: string)
    requires Silent(line)
    ensures Spoken([line]) == []
  {
    assert [line][1..] == [];
  }

  lemma SpokenBetween(first: string, lines: seq<string>, last: string)
    requires Silent(first) && Silent(last)
    ensures Spoken([first] + lines + [last]) == Spoken(lines)
  {
    SpokenAppend([first] + lines, [last]);
    SpokenAppend([first], lines);
    SilentSays(first);
    SilentSays(last);
  }

  lemma EndedSays(text: string)
    ensures Directives(text + "\n") == Directives(text)
  {
    BlankEnds("", text, "\n");
    assert "" + text + "\n" == text + "\n";
  }

  /** A last line need not be ended. */
  lemma UnendedSays(lines: seq<string>, last: string)
    requires Rendered(last) && forall l :: l in lines ==> Rendered(l)
    ensures Directives(Join(lines + [last], "\n")) == Spoken(lines + [last])
  {
    DirectivesOfRendered(lines + [last]);
    UnlinesAppend(lines, last);
    JoinWithLast(lines, last);
    EndedSays(Join(lines + [last], "\n"));
  }

  /** Lines between two comments: the text says what the lines say. */
  lemma EnclosedSays(first: string, lines: seq<string>, last: string)
    requires Rendered(first) && Silent(first) && Rendered(last) && Silent(last)
    requires forall l :: l in lines ==> Rendered(l)
    ensures Directives(Join([first] + lines + [last], "\n")) == Spoken(lines)
  {
    UnendedSays([first] + lines, last);
    SpokenBetween(first, lines, last);
  }

  /** The block says nothing but the eight includes. */
  lemma BlockSays(dir: string)
    requires Spaceless(dir)
    ensures Directives(Block(dir)) == PageIncludes(dir)
  {
    IncludeLinesSay(dir, ManagedFileNames());
    MarkersAreSilent();
    EnclosedSays(BEGIN, IncludeLines(dir, ManagedFileNames()), END);
    AllNames(dir);
  }

  lemma {:induction false} UnlinesAppend(lines: seq<string>, last: string)
    ensures Unlines(lines + [last]) == Unlines(lines) + last + "\n"
  {
    if lines == [] {
      assert [last][1..] == [];
    } else {
      assert (lines + [last])[1..] == lines[1..] + [last];
      UnlinesAppend(lines[1..], last);
    }
  }

  lemma HeadSays(before: string, rest: string)
    ensures LogicalLines(Head(before) + rest) == LogicalLines(before) + LogicalLines(rest)
  {
    var stem := TrimEnd(before);
    var blank := TrimEndSplits(before);
    assert "" + stem + blank == before;
    BlankEnds("", stem, blank);
    if stem == "" {
      assert "" + rest == rest && LogicalLines("") == [];
    } else {
      TwoSections(stem, rest);
    }
  }

  lemma RestSays(after: string)
    ensures LogicalLines(DropLineEnds(after)) == LogicalLines(after)
  {
    var rest := DropLineEnds(after);
    var ends := DropLineEndsSplits(after);
    assert ends + rest + "" == after;
    BlankEnds(ends, rest, "");
  }

  lemma TailSays(block: string, after: string)
    ensures LogicalLines(block + Tail(after)) == LogicalLines(block) + LogicalLines(after)
  {
    var rest := DropLineEnds(after);
    RestSays(after);
    if Trim(rest) == "" {
      BlankTrims(rest);
      assert "" + "" + rest == rest && LogicalLines("") == [];
      BlankEnds("", "", rest);
      assert "" + block + "\n" == block + "\n";
      BlankEnds("", block, "\n");
    } else {
      Reassociate(block, "\n\n", rest);
      TwoSections(block, rest);
    }
  }

  /** For every text, with a block or without one, closed or not: putting the block in place keeps
      every directive that stands outside the old block, in order, and puts the includes of all
      eight pages between them. */
  lemma MainSays(text: string, dir: string)
    requires Spaceless(dir)
    ensures Directives(EnsureBlock(text, dir)) ==
            Directives(Outside(text).0) + PageIncludes(dir) + Directives(Outside(text).1)
  {
    var (before, after) := Outside(text);
    Reassociate(Head(before), Block(dir), Tail(after));
    HeadSays(before, Block(dir) + Tail(after));
    TailSays(Block(dir), after);
    BlockSays(dir);
    DirectivesAppend(LogicalLines(Block(dir)), LogicalLines(after));
    DirectivesAppend(LogicalLines(before), LogicalLines(Block(dir)) + LogicalLines(after));
    Reassociate(Directives(before), PageIncludes(dir), Directives(after));
  }

  // ---------- What the preview says ----------

  lemma CommentStep(line: string, rest: seq<string>)
    requires IsComment(Trim(line))
    ensures LogicalFrom([line] + rest, "") == LogicalFrom(rest, "")
    ensures Separates(rest) ==> Separates([line] + rest)
  {
    AbsorbTrims(line, "");
    assert ([line] + rest)[1..] == rest;
  }

  lemma EmptyStep(rest: seq<string>)
    ensures LogicalFrom([""] + rest, "") == LogicalFrom(rest, "") && Separates([""] + rest)
  {
    AbsorbTrims("", "");
    assert ([""] + rest)[1..] == rest;
  }

  lemma BlankPage(page: string)
    requires Trim(page) == ""
    ensures LogicalLines(page) == []
  {
    BlankTrims(page);
    assert "" + "" + page == page && LogicalLines("") == [];
    BlankEnds("", "", page);
  }

  /** The pages do not run into each other, nor into what follows them. */
  lemma {:induction false} InteriorSays(pages: seq<string>, rest: seq<string>)
    requires Separates(rest)
    ensures Separates(Interior(pages) + rest)
    ensures LogicalFrom(Interior(pages) + rest, "") == LogicalOfAll(pages) + LogicalFrom(rest, "")
  {
    if pages == [] {
      assert Interior(pages) + rest == rest;
    } else {
      var page, more := pages[0], Interior(pages[1..]) + rest;
      InteriorSays(pages[1..], rest);
      if Trim(page) == "" {
        BlankPage(page);
        assert Interior(pages) == Interior(pages[1..]) && LogicalOfAll(pages) == LogicalOfAll(pages[1..]);
      } else {
        Reassociate([""] + Lines(page), Interior(pages[1..]), rest);
        Reassociate([""], Lines(page), more);
        EmptyStep(Lines(page) + more);
        LogicalSeparated(Lines(page), more, "");
        Reassociate(LogicalLines(page), LogicalOfAll(pages[1..]), LogicalFrom(rest, ""));
      }
    }
  }

  lemma TailLinesSay(after: string)
    ensures Separates(Lines(Tail(after)[1..]))
    ensures LogicalFrom(Lines(Tail(after)[1..]), "") == LogicalLines(after)
  {
    var rest := DropLineEnds(after);
    RestSays(after);
    if Trim(rest) == "" {
      BlankPage(rest);
      assert Tail(after)[1..] == "";
    } else {
      assert Tail(after)[1..] == "" + "\n" + rest;
      LinesCons("", rest);
      EmptyStep(Lines(rest));
    }
  }

  lemma {:induction false} InteriorUnbroken(pages: seq<string>)
    ensures forall l :: l in Interior(pages) ==> Unbroken(l)
  {
    if pages != [] {
      LinesAreUnbroken(pages[0]);
      InteriorUnbroken(pages[1..]);
    }
  }

  lemma PreviewLinesSay(head: string, pages: seq<string>, post: seq<string>, lines: seq<string>)
    requires Separates(post) && lines == Lines(head) + ([BEGIN] + Interior(pages) + ([END] + post))
    ensures LogicalFrom(lines, "") == LogicalLines(head) + (LogicalOfAll(pages) + LogicalFrom(post, ""))
  {
    MarkersAreSilent();
    MarkerShapes();
    CommentStep(END, post);
    InteriorSays(pages, [END] + post);
    Reassociate([BEGIN], Interior(pages), [END] + post);
    CommentStep(BEGIN, Interior(pages) + ([END] + post));
    LogicalSeparated(Lines(head), [BEGIN] + Interior(pages) + ([END] + post), "");
  }

  lemma PreviewUnbroken(head: string, pages: seq<string>, post: seq<string>)
    requires forall l :: l in post ==> Unbroken(l)
    ensures forall l :: l in Lines(head) + ([BEGIN] + Interior(pages) + ([END] + post)) ==> Unbroken(l)
  {
    LinesAreUnbroken(head);
    InteriorUnbroken(pages);
    MarkerShapes();
  }

  lemma PreviewReads(text: string, dir: string, pages: seq<string>, head: string, post: seq<string>)
    requires !Dangling(text) && Unbroken(dir) && NoneOpens(Lines(Tail(Outside(text).1)[1..]))
    requires head == Head(Outside(text).0) && post == Lines(Tail(Outside(text).1)[1..]) && Separates(post)
    ensures LogicalLines(Preview(EnsureBlock(text, dir), pages)) ==
            LogicalLines(head) + (LogicalOfAll(pages) + LogicalFrom(post, ""))
  {
    var lines := Lines(head) + ([BEGIN] + Interior(pages) + ([END] + post));
    PreviewReplacesInterior(text, dir, pages);
    LinesAreUnbroken(Tail(Outside(text).1)[1..]);
    PreviewUnbroken(head, pages, post);
    LogicalOfWritten(lines);
    PreviewLinesSay(head, pages, post, lines);
  }

  lemma HeadAlone(before: string)
    ensures LogicalLines(Head(before)) == LogicalLines(before)
  {
    HeadSays(before, "");
    assert Head(before) + "" == Head(before) && LogicalLines("") == [];
  }

  lemma PreviewLogical(text: string, dir: string, pages: seq<string>)
    requires !Dangling(text) && Unbroken(dir) && NoneOpens(Lines(Tail(Outside(text).1)[1..]))
    ensures LogicalLines(Preview(EnsureBlock(text, dir), pages)) ==
            LogicalLines(Outside(text).0) + (LogicalOfAll(pages) + LogicalLines(Outside(text).1))
  {
    var (before, after) := Outside(text);
    TailLinesSay(after);
    PreviewReads(text, dir, pages, Head(before), Lines(Tail(after)[1..]));
    HeadAlone(before);
  }

  /** Where the preview replaces one block, it says what the main file says around the block and, in
      place of the includes, everything the pages say, page by page. */
  lemma PreviewSays(text: string, dir: string, pages: seq<string>)
    requires !Dangling(text) && Unbroken(dir) && NoneOpens(Lines(Tail(Outside(text).1)[1..]))
    ensures Directives(Preview(EnsureBlock(text, dir), pages)) ==
            Directives(Outside(text).0) + (DirectivesOfAll(pages) + Directives(Outside(text).1))
  {
    var (before, after) := Outside(text);
    PreviewLogical(text, dir, pages);
    DirectivesOfLogical(pages);
    DirectivesAppend(LogicalOfAll(pages), LogicalLines(after));
    DirectivesAppend(LogicalLines(before), LogicalOfAll(pages) + LogicalLines(after));
  }

  /** A blank in the directory breaks the includes: the words of such a path do not start with it. */
  lemma BlankCutsPath(dir: string, name: string)
    requires name in ManagedFileNames()
    ensures Words(PathJoin(dir, name)) != [] &&
            (Words(PathJoin(dir, name))[0] == PathJoin(dir, name) <==> Spaceless(dir))
  {
    var path := PathJoin(dir, name);
    NamesAreWords(name);
    if Spaceless(dir) {
      PathIsWord(dir, name);
      assert path + "" == path;
      WordsCons(path, "");
    } else {
      TrimStartHead(path);
      var t := TrimStart(path);
      NonblankHasWords(path, |path| - 1);
      WordsAreWords(path);
      assert Words(path)[0] in Words(path);
      assert forall c :: c in dir ==> c in path;
    }
  }

  lemma NonblankHasWords(s: string, i: nat)
    requires i < |s| && !IsSpace(s[i])
    ensures Words(s) != []
  {
    var blank := TrimStartSplits(s);
    assert s[i] in s && blank + "" == blank;
  }
}
