/** The managed block of the main configuration file: finding it, replacing it, and previewing the
    configuration with the managed files in its place. */
module ManagedBlock {
  import opened Text
  import opened ConfigLines

  const BEGIN := "# BEGIN smartdns-plus-ui managed"
  const END := "# END smartdns-plus-ui managed"

  const SERVICE := "10-basic.conf"
  const UPSTREAMS := "20-upstreams.conf"
  const PERFORMANCE := "30-cache.conf"
  const ROUTING := "40-nameserver.conf"
  const RULES := "50-rules.conf"
  const SETS := "60-sets.conf"
  const LOGGING := "70-logging.conf"
  const NETWORK := "80-network.conf"

  function ManagedFileNames(): seq<string> {
    [SERVICE, UPSTREAMS, PERFORMANCE, SETS, ROUTING, RULES, LOGGING, NETWORK]
  }

  function PathJoin(dir: string, name: string): string {
    if dir == "" || EndsWith(dir, '/') then dir + name else dir + "/" + name
  }

  // ---------- Finding text ----------

  predicate At(s: string, w: string, i: nat) {
    i + |w| <= |s| && s[i..i + |w|] == w
  }

  ghost predicate Lacks(s: string, w: string) {
    forall i: nat :: !At(s, w, i)
  }

  /** Where a text occurs first, or the length when it does not. */
  function Find(s: string, w: string): (n: nat)
    ensures n <= |s| && (n < |s| ==> n + |w| <= |s|)
  {
    if |s| < |w| || s == "" then |s|
    else if s[..|w|] == w then 0
    else 1 + Find(s[1..], w)
  }

  lemma AtNext(s: string, w: string, i: nat)
    requires s != ""
    ensures At(s, w, i + 1) <==> At(s[1..], w, i)
  {
    assert i + 1 + |w| <= |s| ==> s[i + 1..i + 1 + |w|] == s[1..][i..i + |w|];
  }

  lemma {:induction false} FindIs(s: string, w: string)
    requires w != ""
    ensures Find(s, w) < |s| ==> At(s, w, Find(s, w))
    ensures forall i: nat | i < Find(s, w) :: !At(s, w, i)
  {
    if |s| >= |w| && s[..|w|] != w {
      FindIs(s[1..], w);
      forall i: nat | i < Find(s, w) ensures !At(s, w, i) {
        if i > 0 {
          AtNext(s, w, i - 1);
        }
      }
      AtNext(s, w, Find(s[1..], w));
    }
  }

  lemma FindFirst(s: string, w: string, n: nat)
    requires w != "" && At(s, w, n) && forall i: nat | i < n :: !At(s, w, i)
    ensures Find(s, w) == n
  {
    FindIs(s, w);
  }

  lemma FindNone(s: string, w: string)
    requires w != ""
    ensures Find(s, w) == |s| <==> Lacks(s, w)
  {
    FindIs(s, w);
  }

  /** A text that does not occur earlier, behind a character that is not part of it. */
  lemma FirstAt(head: string, w: string, tail: string)
    requires w != "" && Lacks(head, w) && (head != "" ==> head[|head| - 1] !in w)
    ensures Find(head + (w + tail), w) == |head|
  {
    var s := head + (w + tail);
    assert At(s, w, |head|);
    forall i: nat | i < |head| ensures !At(s, w, i) {
      if At(s, w, i) {
        AtHead(head, w + tail, w, i);
      }
    }
    FindFirst(s, w, |head|);
  }

  /** A text that starts before the end of the head lies within it, or holds its last character. */
  lemma AtHead(head: string, rest: string, w: string, i: nat)
    requires At(head + rest, w, i) && i < |head|
    ensures At(head, w, i) || head[|head| - 1] in w
  {
    var s := head + rest;
    if i + |w| <= |head| {
      assert s[i..i + |w|] == head[i..i + |w|];
    } else {
      assert s[i..i + |w|][|head| - 1 - i] == head[|head| - 1];
    }
  }

  lemma AtRest(head: string, rest: string, w: string, i: nat)
    requires At(head + rest, w, i) && i >= |head|
    ensures At(rest, w, i - |head|)
  {
    assert (head + rest)[i..i + |w|] == rest[i - |head|..i - |head| + |w|];
  }

  lemma LacksAcross(a: string, c: char, b: string, w: string)
    requires w != "" && c !in w && Lacks(a, w) && Lacks(b, w)
    ensures Lacks(a + [c] + b, w)
  {
    forall i: nat ensures !At(a + [c] + b, w, i) {
      if At(a + [c] + b, w, i) {
        if i <= |a| {
          AtHead(a + [c], b, w, i);
          AtAppended(a, c, w, i);
        } else {
          AtRest(a + [c], b, w, i);
        }
      }
    }
  }

  lemma AtAppended(a: string, c: char, w: string, i: nat)
    requires At(a + [c], w, i) && w != ""
    ensures At(a, w, i) || c in w
  {
    if i + |w| <= |a| {
      assert (a + [c])[i..i + |w|] == a[i..i + |w|];
    } else {
      assert (a + [c])[i..i + |w|][|w| - 1] == c;
    }
  }

  lemma LacksAfter(a: string, b: string, w: string)
    requires w != "" && w[0] !in a && Lacks(b, w)
    ensures Lacks(a + b, w)
  {
    forall i: nat ensures !At(a + b, w, i) {
      if At(a + b, w, i) {
        assert (a + b)[i] == (a + b)[i..i + |w|][0];
        if i >= |a| {
          AtRest(a, b, w, i);
        }
      }
    }
  }

  lemma LacksWithin(a: string, s: string, b: string, w: string)
    requires Lacks(a + s + b, w)
    ensures Lacks(s, w)
  {
    forall i: nat ensures !At(s, w, i) {
      if At(s, w, i) {
        AtWithin(a, s, b, w, i);
      }
    }
  }

  lemma AtWithin(a: string, s: string, b: string, w: string, i: nat)
    requires At(s, w, i)
    ensures At(a + s + b, w, |a| + i)
  {
    assert (a + s + b)[|a| + i..|a| + i + |w|] == s[i..i + |w|];
  }

  lemma AtShort(s: string, rest: string, w: string, i: nat)
    requires i + |w| <= |s|
    ensures At(s + rest, w, i) <==> At(s, w, i)
  {
    assert (s + rest)[i..i + |w|] == s[i..i + |w|];
  }

  lemma FindPrefix(s: string, rest: string, w: string)
    requires w != "" && Find(s, w) < |s|
    ensures Find(s + rest, w) == Find(s, w)
  {
    FindIs(s, w);
    var n := Find(s, w);
    AtWithin("", s, rest, w, n);
    assert "" + s + rest == s + rest;
    forall i: nat | i < n ensures !At(s + rest, w, i) {
      AtShort(s, rest, w, i);
    }
    FindFirst(s + rest, w, n);
  }

  lemma FindShort(s: string, rest: string, w: string)
    requires w != "" && Find(s + rest, w) + |w| <= |s|
    ensures Find(s, w) == Find(s + rest, w) < |s|
  {
    FindIs(s + rest, w);
    var n := Find(s + rest, w);
    AtShort(s, rest, w, n);
    forall i: nat | i < n ensures !At(s, w, i) {
      AtShort(s, rest, w, i);
    }
    FindFirst(s, w, n);
  }

  lemma {:induction false} LacksInUnlines(lines: seq<string>, w: string)
    requires w != "" && '\n' !in w && forall l :: l in lines ==> Lacks(l, w)
    ensures Lacks(Unlines(lines), w)
  {
    if lines != [] {
      assert lines[0] in lines;
      LacksInUnlines(lines[1..], w);
      LacksAcross(lines[0], '\n', Unlines(lines[1..]), w);
    }
  }

  // ---------- The block ----------

  function IncludeLines(dir: string, names: seq<string>): seq<string> {
    if names == [] then [] else ["conf-file " + PathJoin(dir, names[0])] + IncludeLines(dir, names[1..])
  }

  /** An include line as it is written reads back as one directive. */
  lemma ConfFileLine(rest: string)
    requires rest != "" && Tight(rest) && Unbroken(rest) && !EndsWith(rest, '\\')
    ensures var line := "conf-file" + " " + rest;
            Rendered(line) && !Silent(line) && DirectiveOf(Trim(line)) == Directive("conf-file", rest)
  {
    assert IsWord("conf-file") && '\n' !in "conf-file";
    KeyAndValue("conf-file", rest);
    TrimOfTight(rest);
    TrimOfTight("conf-file" + " " + rest);
  }

  function Opening(dir: string): seq<string> {
    [BEGIN] + IncludeLines(dir, ManagedFileNames())
  }

  function Block(dir: string): string {
    Join(Opening(dir) + [END], "\n")
  }

  lemma {:induction false} JoinWithLast(lines: seq<string>, last: string)
    ensures Join(lines + [last], "\n") == Unlines(lines) + last
  {
    if lines != [] {
      assert (lines + [last])[1..] == lines[1..] + [last];
      JoinWithLast(lines[1..], last);
    }
  }

  predicate PlainName(name: string) {
    '#' !in name && '\n' !in name && !EndsWith(name, '\r') && name != ""
  }

  lemma FirstNamesArePlain()
    ensures PlainName(SERVICE) && PlainName(UPSTREAMS)
  {
  }

  lemma MiddleNamesArePlain()
    ensures PlainName(PERFORMANCE) && PlainName(ROUTING) && PlainName(RULES)
  {
  }

  lemma LastNamesArePlain()
    ensures PlainName(SETS) && PlainName(LOGGING) && PlainName(NETWORK)
  {
  }

  lemma NamesArePlain(name: string)
    requires name in ManagedFileNames()
    ensures PlainName(name)
  {
    FirstNamesArePlain();
    MiddleNamesArePlain();
    LastNamesArePlain();
  }

  lemma MarkerShapes()
    ensures |BEGIN| == 32 && |END| == 30 && '\n' !in BEGIN && '\n' !in END && '/' !in END
    ensures BEGIN[0] == '#' && END[0] == '#' && BEGIN[31] == 'd' && END[29] == 'd'
    ensures BEGIN[1] == ' ' && BEGIN[2] == 'B' && END[2] == 'E'
    ensures Tight(BEGIN) && Tight(END) && BEGIN != END
  {
    assert BEGIN[2] != END[2];
  }

  lemma BeginLacksEnd()
    ensures Lacks(BEGIN, END)
  {
    MarkerShapes();
    forall i: nat ensures !At(BEGIN, END, i) {
      if i == 0 {
        assert BEGIN[0..30][2] == BEGIN[2];
      } else if i == 1 {
        assert BEGIN[1..31][0] == BEGIN[1];
      } else if i == 2 {
        assert BEGIN[2..32][0] == BEGIN[2];
      }
    }
  }

  lemma LacksHash(s: string, w: string)
    requires w != "" && w[0] !in s
    ensures Lacks(s, w)
  {
    assert Lacks("", w);
    assert s + "" == s;
    LacksAfter(s, "", w);
  }

  lemma PathLacksEnd(dir: string, name: string)
    requires Lacks(dir, END) && PlainName(name)
    ensures Lacks(PathJoin(dir, name), END)
  {
    MarkerShapes();
    LacksHash(name, END);
    if dir == "" {
      assert dir + name == name;
    } else if EndsWith(dir, '/') {
      var stem := dir[..|dir| - 1];
      assert "" + stem + "/" == dir && dir + name == stem + ['/'] + name;
      LacksWithin("", stem, "/", END);
      LacksAcross(stem, '/', name, END);
    } else {
      assert dir + "/" + name == dir + ['/'] + name;
      LacksAcross(dir, '/', name, END);
    }
  }

  lemma {:induction false} IncludesLackEnd(dir: string, names: seq<string>)
    requires Lacks(dir, END) && forall n :: n in names ==> PlainName(n)
    ensures forall l :: l in IncludeLines(dir, names) ==> Lacks(l, END)
  {
    if names != [] {
      assert names[0] in names;
      PathLacksEnd(dir, names[0]);
      MarkerShapes();
      LacksAfter("conf-file ", PathJoin(dir, names[0]), END);
      IncludesLackEnd(dir, names[1..]);
    }
  }

  /** A block whose only end marker closes it. */
  ghost predicate Sealed(block: string, inner: string) {
    && block == inner + END && Lacks(inner, END) && EndsWith(inner, '\n')
    && |inner| >= |BEGIN| && inner[..|BEGIN|] == BEGIN
  }

  lemma {:induction false} UnlinesEnds(lines: seq<string>)
    requires lines != []
    ensures EndsWith(Unlines(lines), '\n')
  {
    if |lines| > 1 {
      UnlinesEnds(lines[1..]);
    }
  }

  lemma BlockShape(dir: string)
    ensures Block(dir) == Unlines(Opening(dir)) + END && EndsWith(Unlines(Opening(dir)), '\n')
    ensures Opening(dir)[0] == BEGIN && |Unlines(Opening(dir))| > |BEGIN| && Unlines(Opening(dir))[..|BEGIN|] == BEGIN
  {
    JoinWithLast(Opening(dir), END);
    UnlinesEnds(Opening(dir));
  }

  lemma BlockIsSealed(dir: string)
    requires Lacks(dir, END)
    ensures Sealed(Block(dir), Unlines(Opening(dir)))
  {
    BlockShape(dir);
    BeginLacksEnd();
    MarkerShapes();
    forall n | n in ManagedFileNames() ensures PlainName(n) {
      NamesArePlain(n);
    }
    IncludesLackEnd(dir, ManagedFileNames());
    LacksInUnlines(Opening(dir), END);
  }

  // ---------- The splice ----------

  /** The first begin marker has no end marker after it. */
  predicate Dangling(text: string) {
    var start := Find(text, BEGIN);
    start < |text| && Find(text[start..], END) == |text| - start
  }

  /** What stays before and after the first begin marker and the first end marker from there on. */
  function CutAt(text: string, b: string, e: string): (string, string) {
    var start := Find(text, b);
    var rel := Find(text[start..], e);
    if start == |text| || rel == |text| - start then (text, "")
    else (text[..start], text[start + rel + |e|..])
  }

  lemma CutAtIs(text: string, b: string, e: string, start: nat, rel: nat)
    requires Find(text, b) == start < |text| && Find(text[start..], e) == rel < |text| - start
    ensures start + rel + |e| <= |text| && CutAt(text, b, e) == (text[..start], text[start + rel + |e|..])
  {
  }

  function Outside(text: string): (string, string) {
    CutAt(text, BEGIN, END)
  }

  function DropLineEnds(s: string): string {
    if s != "" && (s[0] == '\r' || s[0] == '\n') then DropLineEnds(s[1..]) else s
  }

  function Head(before: string): string {
    if TrimEnd(before) == "" then "" else TrimEnd(before) + "\n\n"
  }

  function Tail(after: string): string {
    var rest := DropLineEnds(after);
    if Trim(rest) == "" then "\n" else "\n\n" + rest
  }

  function Splice(text: string, block: string): string {
    Head(Outside(text).0) + block + Tail(Outside(text).1)
  }

  function EnsureBlock(text: string, dir: string): string {
    Splice(text, Block(dir))
  }

  method BuildBlock(dir: string) returns (block: string)
    ensures block == Block(dir)
  {
    var includeLines := [BEGIN];
    var names := ManagedFileNames();
    assert names[0..] == names;
    for i := 0 to |names|
      invariant includeLines + IncludeLines(dir, names[i..]) == Opening(dir)
    {
      assert names[i..][1..] == names[i + 1..];
      Reassociate(includeLines, ["conf-file " + PathJoin(dir, names[i])], IncludeLines(dir, names[i + 1..]));
      includeLines := includeLines + ["conf-file " + PathJoin(dir, names[i])];
    }
    assert includeLines + [] == includeLines;
    block := Join(includeLines + [END], "\n");
  }

  /** The texts around the first block, or the whole text when it is absent or not closed. */
  method LocateBlock(text: string) returns (found: bool, before: string, after: string)
    ensures (before, after) == Outside(text) && (!found ==> before == text && after == "")
  {
    var start := Find(text, BEGIN);
    if start < |text| {
      var endRel := Find(text[start..], END);
      if endRel < |text| - start {
        return true, text[..start], text[start + endRel + |END|..];
      }
    }
    return false, text, "";
  }

  method EnsureManagedBlock(mainText: string, dir: string) returns (merged: string)
    ensures merged == EnsureBlock(mainText, dir)
  {
    var block := BuildBlock(dir);
    var found, before, after := LocateBlock(mainText);
    if found {
      merged := PlaceBlock(before, after, block);
    } else {
      merged := AppendBlock(mainText, block);
    }
  }

  /** Without a closed block, the new one goes to the end. */
  method AppendBlock(mainText: string, block: string) returns (merged: string)
    ensures merged == Head(mainText) + block + Tail("")
  {
    TailOfBlank();
    merged := TrimEnd(mainText);
    if merged != "" {
      merged := merged + "\n\n";
    }
    merged := merged + block + "\n";
  }

  method PlaceBlock(before: string, given: string, block: string) returns (merged: string)
    ensures merged == Head(before) + block + Tail(given)
  {
    merged := TrimEnd(before);
    if merged != "" {
      merged := merged + "\n\n";
    }
    merged := merged + block;
    var after := DropLineEnds(given);
    if Trim(after) != "" {
      Reassociate(merged, "\n\n", after);
      merged := merged + "\n\n" + after;
    } else {
      merged := merged + "\n";
    }
  }

  // ---------- Idempotence ----------

  lemma Locate(head: string, b: string, more: string, e: string, tail: string)
    requires b != "" && e != "" && '\n' !in b && '\n' !in e
    requires Lacks(head, b) && (head == "" || EndsWith(head, '\n'))
    requires Lacks(b + more, e) && EndsWith(b + more, '\n')
    ensures var text, inner := head + (b + more + e) + tail, b + more;
            && Find(text, b) == |head| && Find(text[|head|..], e) == |inner|
            && text[..|head|] == head && text[|head| + |inner| + |e|..] == tail
  {
    var text, inner := head + (b + more + e) + tail, b + more;
    Reassociate(head, inner + e, tail);
    Reassociate(inner, e, tail);
    Reassociate(b, more, e + tail);
    FirstAt(head, b, more + (e + tail));
    FirstAt(inner, e, tail);
    Halves(head, inner + (e + tail));
    Halves(head + (inner + e), tail);
  }

  lemma Halves(x: string, y: string)
    ensures (x + y)[..|x|] == x && (x + y)[|x|..] == y
  {
  }

  lemma OutsideOfSealed(head: string, block: string, inner: string, tail: string)
    requires Sealed(block, inner) && Lacks(head, BEGIN) && (head == "" || EndsWith(head, '\n'))
    ensures Outside(head + block + tail) == (head, tail) && !Dangling(head + block + tail)
  {
    MarkerShapes();
    var more := inner[|BEGIN|..];
    assert inner == BEGIN + more;
    Locate(head, BEGIN, more, END, tail);
  }

  lemma HeadTwice(before: string)
    ensures Head(Head(before)) == Head(before)
  {
    TrimEndLast(before);
    if TrimEnd(before) != "" {
      TrimEndOfBlank(TrimEnd(before), "\n\n");
    }
  }

  lemma {:induction false} DropLineEndsHead(s: string)
    ensures DropLineEnds(s) == "" || (DropLineEnds(s)[0] != '\r' && DropLineEnds(s)[0] != '\n')
  {
    if s != "" && (s[0] == '\r' || s[0] == '\n') {
      DropLineEndsHead(s[1..]);
    }
  }

  lemma TailTwice(after: string)
    ensures Tail(Tail(after)) == Tail(after)
  {
    var rest := DropLineEnds(after);
    DropLineEndsHead(after);
    if Trim(rest) == "" {
      assert "\n"[1..] == "";
      assert DropLineEnds("\n") == "" && Trim("") == "";
    } else {
      var s := "\n\n" + rest;
      assert s[1..] == "\n" + rest && s[1..][1..] == rest;
      assert DropLineEnds(s) == DropLineEnds(s[1..]) == DropLineEnds(rest) == rest;
    }
  }

  lemma HeadLacks(before: string, w: string)
    requires Lacks(before, w) && w != "" && '\n' !in w
    ensures Lacks(Head(before), w) && (Head(before) == "" || EndsWith(Head(before), '\n'))
  {
    var stem := TrimEnd(before);
    var blank := TrimEndSplits(before);
    assert "" + stem + blank == before;
    LacksWithin("", stem, blank, w);
    assert Lacks("", w);
    LacksAcross(stem, '\n', "", w);
    LacksAcross(stem + ['\n'] + "", '\n', "", w);
    assert stem + ['\n'] + "" + ['\n'] + "" == stem + "\n\n";
  }

  lemma BeforeLacks(text: string)
    requires !Dangling(text)
    ensures Lacks(Outside(text).0, BEGIN)
  {
    MarkerShapes();
    FindIs(text, BEGIN);
    var start := Find(text, BEGIN);
    if start < |text| {
      FindIs(text[start..], END);
      assert "" + text[..start] + text[start..] == text;
      forall i: nat ensures !At(text[..start], BEGIN, i) {
        if At(text[..start], BEGIN, i) {
          AtWithin("", text[..start], text[start..], BEGIN, i);
        }
      }
    } else {
      FindNone(text, BEGIN);
    }
  }

  lemma SpliceSettles(text: string, block: string, inner: string)
    requires Sealed(block, inner) && !Dangling(text)
    ensures Splice(Splice(text, block), block) == Splice(text, block) && !Dangling(Splice(text, block))
  {
    var (before, after) := Outside(text);
    BeforeLacks(text);
    MarkerShapes();
    HeadLacks(before, BEGIN);
    OutsideOfSealed(Head(before), block, inner, Tail(after));
    HeadTwice(before);
    TailTwice(after);
  }

  lemma {:induction false} TrimEndKeeps(s: string, n: nat)
    requires 0 < n <= |s| && !IsSpace(s[n - 1])
    ensures n <= |TrimEnd(s)|
    decreases |s|
  {
    if IsSpace(s[|s| - 1]) {
      TrimEndKeeps(s[..|s| - 1], n);
    }
  }

  lemma FromPoint(a: string, b: string, n: nat)
    requires n <= |a|
    ensures (a + b)[n..] == "" + a[n..] + b && (a + b)[..n] == a[..n]
  {
  }

  lemma DanglingStem(text: string)
    requires Dangling(text)
    ensures Outside(text) == (text, "") && Find(text, BEGIN) + |BEGIN| <= |TrimEnd(text)| && TrimEnd(text) <= text
    ensures Lacks(TrimEnd(text)[Find(text, BEGIN)..], END)
  {
    MarkerShapes();
    FindIs(text, BEGIN);
    var start := Find(text, BEGIN);
    assert text[start..start + |BEGIN|][31] == BEGIN[31];
    TrimEndKeeps(text, start + |BEGIN|);
    var blank := TrimEndSplits(text);
    FindNone(text[start..], END);
    FromPoint(TrimEnd(text), blank, start);
    LacksWithin("", TrimEnd(text)[start..], blank, END);
  }

  lemma EndAfterStem(stem: string, start: nat, inner: string, e: string)
    requires start <= |stem| && Lacks(stem[start..], e) && Lacks(inner, e) && EndsWith(inner, '\n')
    requires e != "" && '\n' !in e
    ensures var spliced := stem + "\n\n" + (inner + e) + "\n";
            Find(spliced[start..], e) == |spliced| - start - |e| - 1 && spliced[|spliced| - 1..] == "\n"
  {
    var spliced := stem + "\n\n" + (inner + e) + "\n";
    var kept := stem[start..];
    assert Lacks("", e);
    LacksAcross("", '\n', inner, e);
    var lower := "" + ['\n'] + inner;
    LacksAcross(kept, '\n', lower, e);
    var head := kept + ['\n'] + lower;
    assert spliced[start..] == head + (e + "\n");
    FirstAt(head, e, "\n");
  }

  lemma TailOfBlank()
    ensures Tail("") == Tail("\n") == "\n"
  {
    assert "\n"[1..] == "" && Trim("") == "";
    assert DropLineEnds("\n") == "";
  }

  /** The text after a block is appended to one that dangles. */
  function BlockAppended(text: string, block: string): string {
    TrimEnd(text) + "\n\n" + block + "\n"
  }

  lemma DanglingAppends(text: string, block: string)
    requires Dangling(text)
    ensures Splice(text, block) == BlockAppended(text, block)
  {
    MarkerShapes();
    DanglingStem(text);
    TailOfBlank();
  }

  lemma DanglingBegin(text: string, block: string)
    requires Dangling(text)
    ensures Find(text, BEGIN) + 32 <= |TrimEnd(text)| && Find(BlockAppended(text, block), BEGIN) == Find(text, BEGIN)
    ensures TrimEnd(text) <= BlockAppended(text, block) && Lacks(TrimEnd(text)[Find(text, BEGIN)..], END)
  {
    MarkerShapes();
    DanglingStem(text);
    var stem := TrimEnd(text);
    Reassociate(stem, "\n\n", block);
    Reassociate(stem, "\n\n" + block, "\n");
    FirstBeginStays(text, stem, BlockAppended(text, block));
  }

  /** An unclosed block stays in the text once, and is cut away by the next application. */
  lemma DanglingSplices(text: string, block: string, inner: string)
    requires Sealed(block, inner) && Dangling(text)
    ensures Find(text, BEGIN) <= |TrimEnd(text)|
    ensures Outside(Splice(text, block)) == (TrimEnd(text)[..Find(text, BEGIN)], "\n") && !Dangling(Splice(text, block))
  {
    DanglingAppends(text, block);
    DanglingBegin(text, block);
    MarkerShapes();
    EndAfterStem(TrimEnd(text), Find(text, BEGIN), inner, END);
    CutBeforeLast(BlockAppended(text, block), TrimEnd(text), BEGIN, END);
  }

  lemma CutBeforeLast(text: string, stem: string, b: string, e: string)
    requires Find(text, b) <= |stem| < |text| && stem <= text
    requires |text| - Find(text, b) - |e| - 1 >= 0
    requires Find(text[Find(text, b)..], e) == |text| - Find(text, b) - |e| - 1
    ensures CutAt(text, b, e) == (stem[..Find(text, b)], text[|text| - 1..])
  {
    var start := Find(text, b);
    CutAtIs(text, b, e, start, |text| - start - |e| - 1);
    assert text[..start] == stem[..start];
  }

  lemma DanglingShrinks(text: string, block: string, inner: string)
    requires Sealed(block, inner) && Dangling(text)
    ensures |Splice(Splice(text, block), block)| < |Splice(text, block)|
  {
    MarkerShapes();
    DanglingSplices(text, block, inner);
    DanglingStem(text);
    TailOfBlank();
    TrimEndLast(TrimEnd(text)[..Find(text, BEGIN)]);
  }

  lemma FirstBeginStays(text: string, stem: string, spliced: string)
    requires stem <= text && stem <= spliced && Find(text, BEGIN) + |BEGIN| <= |stem|
    ensures Find(spliced, BEGIN) == Find(text, BEGIN)
  {
    MarkerShapes();
    assert stem + text[|stem|..] == text && stem + spliced[|stem|..] == spliced;
    FindShort(stem, text[|stem|..], BEGIN);
    FindPrefix(stem, spliced[|stem|..], BEGIN);
  }

  /** Without the end marker in the directory, applying it again changes nothing exactly when the
      first begin marker is absent or closed; a third application never changes anything. */
  lemma EnsureBlockSettles(text: string, dir: string)
    requires Lacks(dir, END)
    ensures EnsureBlock(EnsureBlock(text, dir), dir) == EnsureBlock(text, dir) <==> !Dangling(text)
    ensures var twice := EnsureBlock(EnsureBlock(text, dir), dir);
            EnsureBlock(twice, dir) == twice
  {
    BlockIsSealed(dir);
    var block, inner := Block(dir), Unlines(Opening(dir));
    if Dangling(text) {
      DanglingSplices(text, block, inner);
      DanglingShrinks(text, block, inner);
      SpliceSettles(Splice(text, block), block, inner);
    } else {
      SpliceSettles(text, block, inner);
    }
  }

  // ---------- What stays outside ----------

  lemma {:induction false} DropLineEndsSplits(s: string) returns (ends: string)
    ensures s == ends + DropLineEnds(s) && Blank(ends)
  {
    ends := "";
    if s != "" && (s[0] == '\r' || s[0] == '\n') {
      var rest := DropLineEndsSplits(s[1..]);
      ends := [s[0]] + rest;
    }
  }

  predicate Seam(blank: string) {
    blank == "" || blank == "\n" || blank == "\n\n"
  }

  /** A block from a begin marker to an end marker. */
  predicate FromBeginToEnd(s: string) {
    |s| >= 32 && At(s, BEGIN, 0) && At(s, END, |s| - 30)
  }

  lemma MarkersApart(s: string, rel: nat)
    requires At(s, BEGIN, 0) && At(s, END, rel)
    ensures rel >= 2
  {
    MarkerShapes();
    assert s[..|BEGIN|] == BEGIN;
    assert s[rel..rel + |END|][0] == s[rel] && s[rel..rel + |END|][2] == s[rel + 2];
  }

  lemma CutsBlock(text: string, start: nat, rel: nat)
    requires start <= |text| && At(text, BEGIN, start) && At(text[start..], END, rel)
    ensures FromBeginToEnd(text[start..][..rel + |END|])
  {
    MarkerShapes();
    var s := text[start..];
    assert s[0..0 + |BEGIN|] == text[start..start + |BEGIN|];
    MarkersApart(s, rel);
    var cut := s[..rel + |END|];
    assert cut[0..0 + |BEGIN|] == s[0..0 + |BEGIN|];
    assert cut[rel..rel + |END|] == s[rel..rel + |END|];
  }

  /** From its begin marker on, the first end marker of a cut block is its last text. */
  predicate OneEnd(s: string) {
    Find(s, END) + 30 == |s|
  }

  lemma CutHasOneEnd(text: string, start: nat, rel: nat)
    requires start <= |text| && rel == Find(text[start..], END) < |text| - start
    ensures OneEnd(text[start..][..rel + |END|])
  {
    MarkerShapes();
    var s := text[start..];
    assert s[..rel + |END|] + s[rel + |END|..] == s;
    FindShort(s[..rel + |END|], s[rel + |END|..], END);
  }

  lemma OutsideSplits(text: string) returns (removed: string)
    ensures text == Outside(text).0 + removed + Outside(text).1
    ensures removed == "" <==> Find(text, BEGIN) == |text| || Dangling(text)
    ensures removed == "" ==> Outside(text) == (text, "")
    ensures removed != "" ==> |Outside(text).0| == Find(text, BEGIN) && FromBeginToEnd(removed) && OneEnd(removed)
  {
    FindIs(text, BEGIN);
    var start := Find(text, BEGIN);
    FindIs(text[start..], END);
    var rel := Find(text[start..], END);
    if start == |text| || rel == |text| - start {
      removed := "";
    } else {
      removed := text[start..][..rel + |END|];
      CutsBlock(text, start, rel);
      CutHasOneEnd(text, start, rel);
      ThreeParts(text, start, rel + |END|);
    }
  }

  lemma ThreeParts(text: string, start: nat, n: nat)
    requires start + n <= |text|
    ensures text == text[..start] + text[start..][..n] + text[start + n..]
  {
  }

  lemma TailSplits(given: string) returns (ends: string, after: string, seam: string)
    ensures given == ends + after && Blank(ends) && Tail(given) == seam + after && Seam(seam)
  {
    var rest := DropLineEnds(given);
    ends := DropLineEndsSplits(given);
    if Trim(rest) == "" {
      BlankTrims(rest);
      ends, after, seam := ends + rest, "", "\n";
    } else {
      after, seam := rest, "\n\n";
    }
  }

  lemma HeadSplits(given: string) returns (before: string, gap: string, seam: string)
    ensures given == before + gap && Blank(gap) && Head(given) == before + seam && Seam(seam)
  {
    before := TrimEnd(given);
    gap := TrimEndSplits(given);
    seam := if before == "" then "" else "\n\n";
  }

  /** Everything outside the first block is kept, in place, up to whitespace at the two seams. What
      goes is that block, from the first begin marker of the text to the first end marker after it,
      or nothing when there is no begin marker or no end marker follows it. */
  lemma OutsideIsKept(text: string, dir: string)
    returns (before: string, gap: string, removed: string, ends: string, after: string, seam: string, nextSeam: string)
    ensures text == (before + gap) + removed + (ends + after) && Blank(gap) && Blank(ends)
    ensures EnsureBlock(text, dir) == (before + seam) + Block(dir) + (nextSeam + after) && Seam(seam) && Seam(nextSeam)
    ensures removed == "" <==> Lacks(text, BEGIN) || Dangling(text)
    ensures removed == "" ==> text == before + gap && ends + after == ""
    ensures removed != "" ==> |before + gap| == Find(text, BEGIN) && FromBeginToEnd(removed) && OneEnd(removed)
  {
    MarkerShapes();
    FindNone(text, BEGIN);
    removed := OutsideSplits(text);
    before, gap, seam := HeadSplits(Outside(text).0);
    ends, after, nextSeam := TailSplits(Outside(text).1);
  }

  // ---------- Paths that hold the end marker ----------

  lemma PathStartsWithDir(dir: string, name: string) returns (rest: string)
    ensures PathJoin(dir, name) == dir + rest
  {
    rest := if dir == "" || EndsWith(dir, '/') then name else "/" + name;
  }

  lemma InnerHoldsDir(dir: string) returns (pre: string, post: string)
    ensures Unlines(Opening(dir)) == pre + dir + post
  {
    var names := ManagedFileNames();
    var rest := PathStartsWithDir(dir, names[0]);
    var more := IncludeLines(dir, names[1..]);
    assert Opening(dir) == [BEGIN] + (["conf-file " + (dir + rest)] + more);
    pre, post := BEGIN + "\n" + "conf-file ", rest + "\n" + Unlines(more);
    UnlinesTwo(BEGIN, "conf-file ", dir, rest, more);
  }

  lemma UnlinesTwo(first: string, a: string, b: string, c: string, more: seq<string>)
    ensures Unlines([first] + ([a + (b + c)] + more)) == (first + "\n" + a) + b + (c + "\n" + Unlines(more))
  {
    assert ([first] + ([a + (b + c)] + more))[1..] == [a + (b + c)] + more;
    assert ([a + (b + c)] + more)[1..] == more;
    Reassociate(first + "\n", a + (b + c), "\n" + Unlines(more));
    Reassociate(a + (b + c), "\n", Unlines(more));
    Reassociate(first + "\n", a, b + c);
    Reassociate(first + "\n" + a, b, c);
    Reassociate(first + "\n" + a + b, c, "\n" + Unlines(more));
    Reassociate(c, "\n", Unlines(more));
    Reassociate(first + "\n", a + (b + c) + "\n", Unlines(more));
    Reassociate(first + "\n" + a, b + c, "\n" + Unlines(more));
  }

  lemma {:induction false} DropLineEndsKeeps(s: string, n: nat)
    requires n < |s| && s[n] != '\r' && s[n] != '\n'
    ensures |DropLineEnds(s)| >= |s| - n && s[n] in DropLineEnds(s)
  {
    if s[0] == '\r' || s[0] == '\n' {
      DropLineEndsKeeps(s[1..], n - 1);
    }
  }

  lemma TailKeeps(left: string, tail: string)
    requires EndsWith(left, 'd')
    ensures |Tail(left + tail)| > |tail|
  {
    var s := left + tail;
    DropLineEndsKeeps(s, |left| - 1);
    BlankTrims(DropLineEnds(s));
  }

  lemma FirstAtStart(head: string, w: string, body: string)
    requires w != "" && Lacks(head, w) && (head != "" ==> head[|head| - 1] !in w) && w <= body
    ensures Find(head + body, w) == |head|
  {
    FirstAt(head, w, body[|w|..]);
    assert body == w + body[|w|..];
  }

  lemma Beyond(head: string, body: string, k: nat)
    requires k <= |body|
    ensures (head + body)[|head| + k..] == body[k..]
  {
  }

  lemma CutWhere(head: string, b: string, body: string, e: string)
    requires Find(head + body, b) == |head| && Find(body, e) < |body|
    ensures CutAt(head + body, b, e) == (head, body[Find(body, e) + |e|..])
  {
    Halves(head, body);
    CutAtIs(head + body, b, e, |head|, Find(body, e));
    Beyond(head, body, Find(body, e) + |e|);
  }

  lemma CutAfterHead(head: string, b: string, body: string, e: string)
    requires Lacks(head, b) && (head == "" || EndsWith(head, '\n')) && b <= body && Find(body, e) < |body|
    requires b != "" && '\n' !in b
    ensures CutAt(head + body, b, e) == (head, body[Find(body, e) + |e|..])
  {
    assert Find(head + body, b) == |head| by {
      FirstAtStart(head, b, body);
    }
    CutWhere(head, b, body, e);
  }

  /** A block that holds an end marker is cut there, and the rest of it stays in the text. */
  lemma EarlyCut(text: string, head: string, b: string, body: string, e: string, k: nat)
    requires text == head + body && Find(body, e) == k < |body| && b <= body
    requires Lacks(head, b) && (head == "" || EndsWith(head, '\n')) && b != "" && '\n' !in b
    ensures CutAt(text, b, e) == (head, body[k + |e|..])
  {
    CutAfterHead(head, b, body, e);
  }

  lemma EarlyFind(b: string, inner: string, e: string, tail: string)
    requires e != "" && Find(inner, e) < |inner| && b <= inner
    ensures Find(inner + e + tail, e) == Find(inner, e) && b <= inner + e + tail
  {
    Reassociate(inner, e, tail);
    FindPrefix(inner, e + tail, e);
  }

  lemma AfterEarlyEnd(rest: string, inner: string, e: string, tail: string, k: nat)
    requires k <= |inner| && EndsWith(e, 'd') && rest == (inner + e + tail)[k..]
    ensures |Tail(rest)| > |tail|
  {
    Reassociate(inner, e, tail);
    FromPoint(inner, e + tail, k);
    assert "" + inner[k..] == inner[k..];
    Reassociate(inner[k..], e, tail);
    TailKeeps(inner[k..] + e, tail);
  }

  /** With the end marker in the directory, every further application makes the text longer. */
  lemma EndInPathGrows(text: string, dir: string)
    requires !Lacks(dir, END) && !Dangling(text)
    ensures |EnsureBlock(EnsureBlock(text, dir), dir)| > |EnsureBlock(text, dir)|
  {
    BlockShape(dir);
    InnerHoldsEnd(dir);
    MarkerShapes();
    HeadTwice(Outside(text).0);
    SpliceKeepsRest(text, Unlines(Opening(dir)));
  }

  lemma SpliceKeepsRest(text: string, inner: string)
    requires !Dangling(text) && BEGIN <= inner && Find(inner, END) < |inner|
    ensures var outside := Outside(Splice(text, inner + END));
            outside.0 == Head(Outside(text).0) && |Tail(outside.1)| > |Tail(Outside(text).1)|
  {
    var head, tail := Head(Outside(text).0), Tail(Outside(text).1);
    MarkerShapes();
    assert Lacks(head, BEGIN) && (head == "" || EndsWith(head, '\n')) by {
      BeforeLacks(text);
      HeadLacks(Outside(text).0, BEGIN);
    }
    var rest := RestOfCut(Splice(text, inner + END), head, BEGIN, inner, END, tail);
    AfterEarlyEnd(rest, inner, END, tail, Find(inner, END) + |END|);
  }

  lemma RestOfCut(text: string, head: string, b: string, inner: string, e: string, tail: string)
    returns (rest: string)
    requires text == head + (inner + e) + tail && b <= inner && Find(inner, e) < |inner| && e != ""
    requires Lacks(head, b) && (head == "" || EndsWith(head, '\n')) && b != "" && '\n' !in b
    ensures CutAt(text, b, e) == (head, rest) && rest == (inner + e + tail)[Find(inner, e) + |e|..]
  {
    var body := BodyOf(text, head, b, inner, e, tail);
    rest := body[Find(inner, e) + |e|..];
    assert CutAt(text, b, e) == (head, rest) by {
      EarlyCut(text, head, b, body, e, Find(inner, e));
    }
  }

  lemma BodyOf(text: string, head: string, b: string, inner: string, e: string, tail: string) returns (body: string)
    requires text == head + (inner + e) + tail && b <= inner && e != "" && Find(inner, e) < |inner|
    ensures body == inner + e + tail && text == head + body && b <= body
    ensures Find(body, e) == Find(inner, e) < |body|
  {
    body := inner + e + tail;
    EarlyFind(b, inner, e, tail);
    Reassociate(head, inner + e, tail);
  }

  lemma FindBeyond(head: string, rest: string, w: string)
    requires w != "" && Lacks(head, w) && head != "" && head[|head| - 1] !in w && Find(rest, w) < |rest|
    ensures Find(head + rest, w) == |head| + Find(rest, w)
  {
    FindIs(rest, w);
    var n := |head| + Find(rest, w);
    AtWithin(head, rest, "", w, Find(rest, w));
    assert head + rest + "" == head + rest;
    forall i: nat | i < n ensures !At(head + rest, w, i) {
      if At(head + rest, w, i) {
        if i < |head| {
          AtHead(head, rest, w, i);
        } else {
          AtRest(head, rest, w, i);
        }
      }
    }
    FindFirst(head + rest, w, n);
  }

  /** Where the first begin marker is, and how far after it the first end marker. */
  predicate MarkersAre(text: string, start: nat, rel: nat) {
    start <= |text| && Find(text, BEGIN) == start && Find(text[start..], END) == rel
  }

  lemma BlockMarkers(head: string, inner: string, tail: string)
    requires Lacks(head, BEGIN) && (head == "" || EndsWith(head, '\n')) && BEGIN <= inner && Find(inner, END) < |inner|
    ensures MarkersAre(head + (inner + END) + tail, |head|, Find(inner, END))
  {
    MarkerShapes();
    Reassociate(head, inner + END, tail);
    Reassociate(inner, END, tail);
    FirstAtStart(head, BEGIN, inner + END + tail);
    Halves(head, inner + END + tail);
    FindPrefix(inner, END + tail, END);
  }

  /** The first end marker after a stem without one and a blank line. */
  lemma EndBeyond(kept: string, inner: string, e: string)
    requires e != "" && '\n' !in e && Lacks(kept, e) && Find(inner, e) < |inner|
    ensures Find(kept + ("\n\n" + (inner + e + "\n")), e) == |kept| + 2 + Find(inner, e)
  {
    assert Lacks("", e);
    LacksAcross(kept, '\n', "", e);
    LacksAcross(kept + ['\n'] + "", '\n', "", e);
    assert kept + ['\n'] + "" + ['\n'] + "" == kept + "\n\n";
    Reassociate(inner, e, "\n");
    FindPrefix(inner, e + "\n", e);
    FindBeyond(kept + "\n\n", inner + e + "\n", e);
    Reassociate(kept, "\n\n", inner + e + "\n");
  }

  lemma StemMarkers(stem: string, start: nat, inner: string)
    requires start < |stem| && Lacks(stem[start..], END) && Find(inner, END) < |inner|
    requires Find(stem + "\n\n" + (inner + END) + "\n", BEGIN) == start
    ensures MarkersAre(stem + "\n\n" + (inner + END) + "\n", start, |stem| - start + 2 + Find(inner, END))
  {
    MarkerShapes();
    var body := inner + END + "\n";
    EndBeyond(stem[start..], inner, END);
    Reassociate(stem + "\n\n", inner + END, "\n");
    Reassociate(stem, "\n\n", body);
    FromPoint(stem, "\n\n" + body, start);
    assert "" + stem[start..] == stem[start..];
  }

  /** Both flaws together: the end marker comes later after the first application than after the second. */
  lemma EndInPathDiffers(text: string, dir: string)
    requires !Lacks(dir, END) && Dangling(text)
    ensures EnsureBlock(EnsureBlock(text, dir), dir) != EnsureBlock(text, dir)
  {
    var inner, spliced := Unlines(Opening(dir)), EnsureBlock(text, dir);
    InnerHoldsEnd(dir);
    BlockShape(dir);
    DanglingAppends(text, Block(dir));
    DanglingBegin(text, Block(dir));
    StemMarkers(TrimEnd(text), Find(text, BEGIN), inner);
    SpliceMarkers(spliced, inner);
  }

  lemma SpliceMarkers(text: string, inner: string)
    requires !Dangling(text) && BEGIN <= inner && Find(inner, END) < |inner|
    ensures MarkersAre(Splice(text, inner + END), |Head(Outside(text).0)|, Find(inner, END))
  {
    MarkerShapes();
    BeforeLacks(text);
    HeadLacks(Outside(text).0, BEGIN);
    BlockMarkers(Head(Outside(text).0), inner, Tail(Outside(text).1));
  }

  lemma InnerHoldsEnd(dir: string)
    requires !Lacks(dir, END)
    ensures Find(Unlines(Opening(dir)), END) < |Unlines(Opening(dir))|
  {
    var inner := Unlines(Opening(dir));
    var pre, post := InnerHoldsDir(dir);
    MarkerShapes();
    FindNone(inner, END);
    if Lacks(inner, END) {
      LacksWithin(pre, dir, post, END);
    }
  }

  /** Applying it again changes nothing if and only if the directory does not hold the end marker and
      the first begin marker is absent or closed. */
  lemma EnsureBlockIsIdempotent(text: string, dir: string)
    ensures EnsureBlock(EnsureBlock(text, dir), dir) == EnsureBlock(text, dir) <==> Lacks(dir, END) && !Dangling(text)
  {
    if Lacks(dir, END) {
      EnsureBlockSettles(text, dir);
    } else if Dangling(text) {
      EndInPathDiffers(text, dir);
    } else {
      EndInPathGrows(text, dir);
    }
  }
}
