/** The preview of the effective configuration: the main file with the managed files in its block. */
module EffectivePreview {
  import opened Text
  import opened ConfigLines
  import opened ManagedBlock

  /** The order of the pages in the preview, which is not the order of the include lines. */
  function PageNames(): seq<string> {
    [SERVICE, UPSTREAMS, PERFORMANCE, ROUTING, RULES, SETS, LOGGING, NETWORK]
  }

  function ReadOrEmpty(files: map<string, string>, path: string): string {
    if path in files then files[path] else ""
  }

  function Pages(files: map<string, string>, dir: string, names: seq<string>): seq<string> {
    if names == [] then [] else [ReadOrEmpty(files, PathJoin(dir, names[0]))] + Pages(files, dir, names[1..])
  }

  /** The pages that are not blank, each after an empty line. */
  function Interior(pages: seq<string>): seq<string> {
    if pages == [] then []
    else (if Trim(pages[0]) == "" then [] else [""] + Lines(pages[0])) + Interior(pages[1..])
  }

  function PreviewLines(lines: seq<string>, inBlock: bool, interior: seq<string>): seq<string>
    decreases lines
  {
    if lines == [] then []
    else if Trim(lines[0]) == BEGIN then [lines[0]] + interior + PreviewLines(lines[1..], true, interior)
    else if !inBlock then [lines[0]] + PreviewLines(lines[1..], false, interior)
    else if Trim(lines[0]) == END then [lines[0]] + PreviewLines(lines[1..], false, interior)
    else PreviewLines(lines[1..], true, interior)
  }

  function Preview(mainText: string, pages: seq<string>): string {
    Unlines(PreviewLines(Lines(mainText), false, Interior(pages)))
  }

  method PushPages(given: seq<string>, pages: seq<string>) returns (lines: seq<string>)
    ensures lines == given + Interior(pages)
  {
    lines := given;
    assert pages[0..] == pages;
    for i := 0 to |pages|
      invariant lines + Interior(pages[i..]) == given + Interior(pages)
    {
      assert pages[i..][1..] == pages[i + 1..];
      ghost var rest := Interior(pages[i + 1..]);
      if Trim(pages[i]) == "" {
        assert [] + rest == rest;
        continue;
      }
      Reassociate(lines, [""] + Lines(pages[i]), rest);
      lines := lines + ([""] + Lines(pages[i]));
    }
    assert lines + [] == lines;
  }

  method RenderEffectiveConfigPreview(mainText: string, files: map<string, string>, dir: string)
    returns (preview: string)
    ensures preview == Preview(mainText, Pages(files, dir, PageNames()))
  {
    var pages := Pages(files, dir, PageNames());
    ghost var interior := Interior(pages);
    var lines: seq<string> := [];
    var inBlock := false;
    var mainLines := Lines(mainText);
    assert mainLines[0..] == mainLines;
    for i := 0 to |mainLines|
      invariant lines + PreviewLines(mainLines[i..], inBlock, interior) == PreviewLines(mainLines, false, interior)
    {
      var line := mainLines[i];
      assert mainLines[i..][0] == line && mainLines[i..][1..] == mainLines[i + 1..];
      if Trim(line) == BEGIN {
        Reassociate(lines, [line] + interior, PreviewLines(mainLines[i + 1..], true, interior));
        Reassociate(lines, [line], interior);
        inBlock := true;
        lines := PushPages(lines + [line], pages);
        continue;
      }
      if inBlock {
        if Trim(line) == END {
          Reassociate(lines, [line], PreviewLines(mainLines[i + 1..], false, interior));
          lines := lines + [line];
          inBlock := false;
        }
        continue;
      }
      Reassociate(lines, [line], PreviewLines(mainLines[i + 1..], false, interior));
      lines := lines + [line];
    }
    assert lines + [] == lines;
    UnlinesIsJoin(lines);
    if lines != [] {
      lines := lines + [""];
    }
    preview := Join(lines, "\n");
  }

  // ---------- Outside lines are kept ----------

  predicate NoneOpens(lines: seq<string>) {
    forall l :: l in lines ==> Trim(l) != BEGIN
  }

  predicate NoneMarks(lines: seq<string>) {
    forall l :: l in lines ==> Trim(l) != BEGIN && Trim(l) != END
  }

  lemma {:induction false} OutsideBlockKept(pre: seq<string>, rest: seq<string>, interior: seq<string>)
    requires NoneOpens(pre)
    ensures PreviewLines(pre + rest, false, interior) == pre + PreviewLines(rest, false, interior)
  {
    if pre == [] {
      assert pre + rest == rest;
    } else {
      assert pre[0] in pre && (pre + rest)[1..] == pre[1..] + rest;
      OutsideBlockKept(pre[1..], rest, interior);
    }
  }

  lemma {:induction false} InsideBlockDropped(mid: seq<string>, rest: seq<string>, interior: seq<string>)
    requires NoneMarks(mid)
    ensures PreviewLines(mid + rest, true, interior) == PreviewLines(rest, true, interior)
  {
    if mid == [] {
      assert mid + rest == rest;
    } else {
      assert mid[0] in mid && (mid + rest)[1..] == mid[1..] + rest;
      InsideBlockDropped(mid[1..], rest, interior);
    }
  }

  /** Whatever stands before it, inside a block or not: every begin line is kept, is followed by all the
      pages, and opens a block. */
  lemma {:induction false} EveryBeginOpens(pre: seq<string>, begin: string, rest: seq<string>, inBlock: bool,
                                           interior: seq<string>)
    requires Trim(begin) == BEGIN
    ensures PreviewLines(pre + ([begin] + rest), inBlock, interior) ==
            PreviewLines(pre, inBlock, interior) + ([begin] + interior + PreviewLines(rest, true, interior))
    decreases pre
  {
    var after := [begin] + interior + PreviewLines(rest, true, interior);
    if pre == [] {
      assert pre + ([begin] + rest) == [begin] + rest && ([begin] + rest)[1..] == rest;
      assert [] + after == after;
    } else {
      var inside := Trim(pre[0]) == BEGIN || (inBlock && Trim(pre[0]) != END);
      assert (pre + ([begin] + rest))[1..] == pre[1..] + ([begin] + rest);
      EveryBeginOpens(pre[1..], begin, rest, inside, interior);
      LineStep(pre[0], pre[1..], inBlock, interior);
      LineStep(pre[0], pre[1..] + ([begin] + rest), inBlock, interior);
      assert pre == [pre[0]] + pre[1..] && pre + ([begin] + rest) == [pre[0]] + (pre[1..] + ([begin] + rest));
      Reassociate(Shown(pre[0], inBlock, interior), PreviewLines(pre[1..], inside, interior), after);
    }
  }

  /** What the preview shows for one line. */
  function Shown(line: string, inBlock: bool, interior: seq<string>): seq<string> {
    if Trim(line) == BEGIN then [line] + interior else if !inBlock || Trim(line) == END then [line] else []
  }

  lemma LineStep(line: string, rest: seq<string>, inBlock: bool, interior: seq<string>)
    ensures PreviewLines([line] + rest, inBlock, interior) ==
            Shown(line, inBlock, interior) +
            PreviewLines(rest, Trim(line) == BEGIN || (inBlock && Trim(line) != END), interior)
  {
    assert ([line] + rest)[1..] == rest;
  }

  lemma OneBlock(pre: seq<string>, mid: seq<string>, post: seq<string>, interior: seq<string>)
    requires NoneOpens(pre) && NoneMarks(mid) && NoneOpens(post)
    ensures PreviewLines(pre + ([BEGIN] + (mid + ([END] + post))), false, interior) ==
            pre + ([BEGIN] + interior + ([END] + post))
  {
    MarkerShapes();
    TrimOfTight(BEGIN);
    TrimOfTight(END);
    var closing := [END] + post;
    var block := [BEGIN] + (mid + closing);
    OutsideBlockKept(pre, block, interior);
    assert block[1..] == mid + closing && closing[1..] == post;
    InsideBlockDropped(mid, closing, interior);
    assert post + [] == post;
    OutsideBlockKept(post, [], interior);
  }

  // ---------- The lines of a spliced text ----------

  lemma {:induction false} LinesOfUnlinesThen(lines: seq<string>, rest: string)
    requires forall l :: l in lines ==> Clean(l)
    ensures Lines(Unlines(lines) + rest) == lines + Lines(rest)
  {
    if lines == [] {
      assert "" + rest == rest;
    } else {
      assert lines[0] in lines;
      LinesOfUnlinesThen(lines[1..], rest);
      Reassociate(lines[0] + "\n", Unlines(lines[1..]), rest);
      LinesCons(lines[0], Unlines(lines[1..]) + rest);
      Reassociate([lines[0]], lines[1..], Lines(rest));
      assert [lines[0]] + lines[1..] == lines;
    }
  }

  lemma {:induction false} TrimmedLineOccurs(s: string, w: string)
    requires w != "" && Lacks(s, w)
    ensures forall l :: l in Lines(s) ==> Trim(l) != w
    decreases |s|
  {
    var line, rest := FirstLine(s);
    if s == line {
      LinesSingle(s);
      TrimOccurs(s, w);
    } else {
      LinesCons(line, rest);
      assert s == "" + line + ("\n" + rest) && s == line + "\n" + rest + "";
      LacksWithin("", line, "\n" + rest, w);
      LacksWithin(line + "\n", rest, "", w);
      TrimOfDropReturn(line);
      TrimOccurs(line, w);
      TrimmedLineOccurs(rest, w);
    }
  }

  lemma TrimOccurs(line: string, w: string)
    requires w != "" && Lacks(line, w)
    ensures Trim(line) != w
  {
    var a, b := TrimSplits(line);
    LacksWithin(a, Trim(line), b, w);
    assert Trim(line) == w ==> At(Trim(line), w, 0);
  }

  lemma {:induction false} IncludeLinesAreClean(dir: string, names: seq<string>)
    requires '\n' !in dir && forall n :: n in names ==> PlainName(n)
    ensures NoneMarks(IncludeLines(dir, names)) && forall l :: l in IncludeLines(dir, names) ==> Clean(l)
  {
    if names != [] {
      assert names[0] in names;
      IncludeLinesAreClean(dir, names[1..]);
      var line := "conf-file " + PathJoin(dir, names[0]);
      assert line[|line| - 1] == names[0][|names[0]| - 1];
      assert line[0] == 'c' && TrimStart(line) == line;
      TrimEndKeepsHead(line);
      MarkerShapes();
    }
  }

  lemma SplicedLines(head: string, opening: seq<string>, end: string, rest: string)
    requires (head == "" || EndsWith(head, '\n')) && Clean(end) && forall l :: l in opening ==> Clean(l)
    ensures Lines(head + (Unlines(opening) + end) + ("\n" + rest)) == Lines(head) + (opening + ([end] + Lines(rest)))
  {
    var body := Unlines(opening) + (end + "\n" + rest);
    FivePieces(head, Unlines(opening), end, "\n", rest);
    LinesOfUnlinesThen(opening, end + "\n" + rest);
    LinesCons(end, rest);
    LinesOfHead(head, body);
  }

  lemma FivePieces(a: string, b: string, c: string, d: string, e: string)
    ensures a + (b + c) + (d + e) == a + (b + (c + d + e))
  {
    Reassociate(a, b + c, d + e);
    Reassociate(b, c, d + e);
    Reassociate(c, d, e);
  }

  lemma LinesOfHead(head: string, body: string)
    requires head == "" || EndsWith(head, '\n')
    ensures Lines(head + body) == Lines(head) + Lines(body)
  {
    if head == "" {
      assert head + body == body;
    } else {
      var stem := head[..|head| - 1];
      assert head == stem + "\n" && head + body == stem + "\n" + body;
      LinesAppend(stem, body);
    }
  }

  lemma TailStarts(after: string)
    ensures StartsWith(Tail(after), '\n') && Tail(after) == "\n" + Tail(after)[1..]
  {
  }

  lemma OpeningIsClean(dir: string)
    requires '\n' !in dir
    ensures NoneMarks(IncludeLines(dir, ManagedFileNames())) && Clean(END)
    ensures forall l :: l in Opening(dir) ==> Clean(l)
  {
    forall n | n in ManagedFileNames() ensures PlainName(n) {
      NamesArePlain(n);
    }
    IncludeLinesAreClean(dir, ManagedFileNames());
    MarkerShapes();
  }

  lemma HeadNeverOpens(text: string)
    requires !Dangling(text)
    ensures var head := Head(Outside(text).0);
            NoneOpens(Lines(head)) && (head == "" || EndsWith(head, '\n'))
  {
    MarkerShapes();
    BeforeLacks(text);
    HeadLacks(Outside(text).0, BEGIN);
    TrimmedLineOccurs(Head(Outside(text).0), BEGIN);
  }

  /** After the splice, with no further begin marker on a line of its own, the preview keeps every
      line outside the block in order and replaces the include lines by the pages. */
  lemma PreviewReplacesInterior(text: string, dir: string, pages: seq<string>)
    requires !Dangling(text) && '\n' !in dir && NoneOpens(Lines(Tail(Outside(text).1)[1..]))
    ensures var pre, post := Lines(Head(Outside(text).0)), Lines(Tail(Outside(text).1)[1..]);
            var spliced := EnsureBlock(text, dir);
            && Lines(spliced) == pre + ([BEGIN] + (IncludeLines(dir, ManagedFileNames()) + ([END] + post)))
            && Preview(spliced, pages) == Unlines(pre + ([BEGIN] + Interior(pages) + ([END] + post)))
  {
    var (before, after) := Outside(text);
    var includes := IncludeLines(dir, ManagedFileNames());
    OpeningIsClean(dir);
    HeadNeverOpens(text);
    TailStarts(after);
    var rest := Tail(after)[1..];
    JoinWithLast(Opening(dir), END);
    SplicedLines(Head(before), Opening(dir), END, rest);
    Reassociate([BEGIN], includes, [END] + Lines(rest));
    OneBlock(Lines(Head(before)), includes, Lines(rest), Interior(pages));
  }
}
