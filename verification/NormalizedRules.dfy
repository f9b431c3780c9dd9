/** Rules text as entered, and its normalised form, which says the same. */
module NormalizedRules {
  import opened Common
  import opened Text
  import opened ConfigLines
  import opened AssetsRoundTrip

  /** Every carriage return before a newline goes. */
  function DropCarriageReturns(s: string): string {
    if s == "" then ""
    else if |s| >= 2 && s[0] == '\r' && s[1] == '\n' then "\n" + DropCarriageReturns(s[2..])
    else [s[0]] + DropCarriageReturns(s[1..])
  }

  const INTRO := "# " + "这份文件专门放图形界面管理的规则。"
  const ADVICE := "# " + "如果你还不熟悉 SmartDNS，建议先从少量规则开始。"
  const BLOCK_HEAD := "# " + "[block]"
  const BLOCK_NOTE := "# " + "这里可以添加你想屏蔽的域名"
  const BLOCK_SAMPLE := "# " + "address /ads.example.com/#"
  const SPLIT_HEAD := "# " + "[split]"
  const SPLIT_NOTE := "# " + "这里可以添加你想分流的域名"
  const SPLIT_SAMPLE := "# " + "nameserver /example.com/office"
  const SPLIT_RULE := "# " + ("domain-rules /example.com/ " + "-speed-check-mode ping")

  function DefaultLines(): seq<string> {
    [GENERATED, INTRO, ADVICE, ""] + [BLOCK_HEAD, BLOCK_NOTE, BLOCK_SAMPLE, ""] +
    [SPLIT_HEAD, SPLIT_NOTE, SPLIT_SAMPLE, SPLIT_RULE]
  }

  /** What stands in for an empty text: comments. */
  function DefaultRules(): string {
    Join(DefaultLines() + [""], "\n")
  }

  function NormalizeRules(text: string): string {
    var t := DropCarriageReturns(text);
    if Trim(t) == "" then DefaultRules() else if EndsWith(t, '\n') then t else t + "\n"
  }

  // ---------- Carriage returns ----------

  lemma {:induction false} UnbrokenStays(line: string)
    requires Unbroken(line)
    ensures DropCarriageReturns(line) == line
  {
    if line != "" {
      assert forall c :: c in line[1..] ==> c in line;
      assert |line| >= 2 ==> line[1] in line;
      UnbrokenStays(line[1..]);
    }
  }

  lemma DropStep(c: char, rest: string)
    ensures DropCarriageReturns([c] + rest) ==
            if c == '\r' && StartsWith(rest, '\n') then DropCarriageReturns(rest) else [c] + DropCarriageReturns(rest)
  {
    var s := [c] + rest;
    assert s[1..] == rest && (|s| >= 2 ==> s[2..] == rest[1..]);
  }

  lemma LastCharacterDrops(c: char, tail: string)
    requires StartsWith(tail, '\n')
    ensures DropCarriageReturns([c] + tail) == DropReturn([c]) + DropCarriageReturns(tail)
  {
    DropStep(c, tail);
    assert DropReturn([c]) == if c == '\r' then "" else [c];
  }

  lemma DropReturnCons(c: char, more: string)
    requires more != ""
    ensures DropReturn([c] + more) == [c] + DropReturn(more)
  {
  }

  lemma {:induction false} LineDrops(line: string, tail: string)
    requires Unbroken(line) && StartsWith(tail, '\n')
    ensures DropCarriageReturns(line + tail) == DropReturn(line) + DropCarriageReturns(tail)
  {
    if line == "" {
      assert line + tail == tail;
    } else if |line| == 1 {
      assert line == [line[0]];
      LastCharacterDrops(line[0], tail);
    } else {
      assert line == [line[0]] + line[1..];
      MoreDrops(line[0], line[1..], tail);
    }
  }

  lemma {:induction false} MoreDrops(c: char, more: string, tail: string)
    requires more != "" && Unbroken([c] + more) && StartsWith(tail, '\n')
    ensures DropCarriageReturns([c] + more + tail) == DropReturn([c] + more) + DropCarriageReturns(tail)
    decreases more
  {
    assert forall x :: x in more ==> x in [c] + more;
    assert more[0] in more && (more + tail)[0] == more[0];
    Reassociate([c], more, tail);
    DropStep(c, more + tail);
    DropReturnCons(c, more);
    if |more| == 1 {
      assert more == [more[0]];
      LastCharacterDrops(more[0], tail);
    } else {
      assert more == [more[0]] + more[1..];
      MoreDrops(more[0], more[1..], tail);
    }
    Reassociate([c], DropReturn(more), DropCarriageReturns(tail));
  }

  lemma FirstLineDrops(line: string, rest: string)
    requires Unbroken(line)
    ensures DropCarriageReturns(line + "\n" + rest) == DropReturn(line) + "\n" + DropCarriageReturns(rest)
  {
    LineDrops(line, "\n" + rest);
    DropStep('\n', rest);
    assert line + "\n" + rest == line + ("\n" + rest);
  }

  lemma {:induction false} DroppedLines(s: string)
    ensures var a, b := Lines(s), Lines(DropCarriageReturns(s));
            |a| == |b| && forall i :: 0 <= i < |a| ==> Trim(a[i]) == Trim(b[i])
    decreases |s|
  {
    var line, rest := FirstLine(s);
    if s == line {
      UnbrokenStays(s);
    } else {
      DroppedLines(rest);
      FirstLineDrops(line, rest);
      LinesCons(line, rest);
      LinesCons(DropReturn(line), DropCarriageReturns(rest));
      TrimOfDropReturn(DropReturn(line));
    }
  }

  // ---------- The default ----------

  lemma FirstDefaultsAreComments()
    ensures CommentLine(GENERATED) && CommentLine(INTRO) && CommentLine(ADVICE)
  {
    CommentIs("Generated by smartdns-plus-ui");
    CommentIs("这份文件专门放图形界面管理的规则。");
    CommentIs("如果你还不熟悉 SmartDNS，建议先从少量规则开始。");
  }

  lemma BlockDefaultsAreComments()
    ensures CommentLine(BLOCK_HEAD) && CommentLine(BLOCK_NOTE) && CommentLine(BLOCK_SAMPLE)
  {
    CommentIs("[block]");
    CommentIs("这里可以添加你想屏蔽的域名");
    CommentIs("address /ads.example.com/#");
  }

  lemma SplitDefaultsAreComments()
    ensures CommentLine(SPLIT_HEAD) && CommentLine(SPLIT_NOTE) && CommentLine(SPLIT_SAMPLE)
  {
    CommentIs("[split]");
    CommentIs("这里可以添加你想分流的域名");
    CommentIs("nameserver /example.com/office");
  }

  lemma LastDefaultIsComment()
    ensures CommentLine(SPLIT_RULE)
  {
    BothUnbroken("domain-rules /example.com/ ", "-speed-check-mode ping");
    CommentIs("domain-rules /example.com/ " + "-speed-check-mode ping");
  }

  lemma BothUnbroken(a: string, b: string)
    requires Unbroken(a) && Unbroken(b)
    ensures Unbroken(a + b)
  {
  }

  predicate Quiet(lines: seq<string>) {
    forall l :: l in lines ==> l == "" || CommentLine(l)
  }

  lemma {:induction false} QuietSaysNothing(lines: seq<string>)
    requires Quiet(lines)
    ensures Directives(Join(lines + [""], "\n")) == []
  {
    UnlinesIsJoin(lines);
    forall l | l in lines ensures Rendered(l) && Silent(l) {
      if l != "" {
        CommentIsRendered(l);
      } else {
        assert Silent("") && Clean("");
      }
    }
    DirectivesOfRendered(lines);
    SilentLines(lines);
  }

  lemma CommentIsRendered(line: string)
    requires CommentLine(line)
    ensures Rendered(line) && Silent(line)
  {
    TrimEndKeepsHead(line);
    assert line == line[..2] + line[2..];
  }

  lemma {:induction false} SilentLines(lines: seq<string>)
    requires forall l :: l in lines ==> Silent(l)
    ensures Spoken(lines) == []
  {
    if lines != [] {
      assert lines[0] in lines;
      SilentLines(lines[1..]);
    }
  }

  lemma DefaultSaysNothing()
    ensures Directives(DefaultRules()) == []
  {
    FirstDefaultsAreComments();
    BlockDefaultsAreComments();
    SplitDefaultsAreComments();
    LastDefaultIsComment();
    QuietSaysNothing(DefaultLines());
  }

  /** For every text: normalising its line ends, ending it, or putting the default in place of a blank
      one changes none of its directives. */
  lemma NormalizedSaysSame(text: string)
    ensures Directives(NormalizeRules(text)) == Directives(text)
    ensures EndsWith(NormalizeRules(text), '\n')
  {
    var t := DropCarriageReturns(text);
    DroppedLines(text);
    LogicalOfTrimmed(Lines(text), Lines(t), "");
    if Trim(t) == "" {
      BlankTrims(t);
      assert "" + "" + t == t && LogicalLines("") == [];
      BlankEnds("", "", t);
      DefaultSaysNothing();
      JoinWithEmpty();
    } else {
      assert "" + t + "\n" == t + "\n";
      BlankEnds("", t, "\n");
    }
  }

  lemma JoinWithEmpty()
    ensures EndsWith(DefaultRules(), '\n')
  {
    UnlinesIsJoin(DefaultLines());
    UnlinesEnd(DefaultLines());
  }

  lemma {:induction false} UnlinesEnd(lines: seq<string>)
    requires lines != []
    ensures EndsWith(Unlines(lines), '\n')
  {
    if |lines| > 1 {
      UnlinesEnd(lines[1..]);
    }
  }
}
