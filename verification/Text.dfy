/** Text as sequences of characters: whitespace, trimming, words and joining. */
module Text {

  /** The characters with the Unicode property White_Space. */
  predicate IsSpace(c: char) {
    var n := c as int;
    0x09 <= n <= 0x0d || n == 0x20 || n == 0x85 || n == 0xa0 || n == 0x1680 || 0x2000 <= n <= 0x200a ||
    n == 0x2028 || n == 0x2029 || n == 0x202f || n == 0x205f || n == 0x3000
  }

  predicate Blank(s: string) {
    forall c :: c in s ==> IsSpace(c)
  }

  /** Nothing to trim at either end. */
  predicate Tight(s: string) {
    s == "" || (!IsSpace(s[0]) && !IsSpace(s[|s| - 1]))
  }

  /** A word: not empty and without whitespace. */
  predicate IsWord(s: string) {
    s != "" && forall c :: c in s ==> !IsSpace(c)
  }

  function TrimStart(s: string): string {
    if s != "" && IsSpace(s[0]) then TrimStart(s[1..]) else s
  }

  function TrimEnd(s: string): string {
    if s != "" && IsSpace(s[|s| - 1]) then TrimEnd(s[..|s| - 1]) else s
  }

  function Trim(s: string): string {
    TrimEnd(TrimStart(s))
  }

  predicate StartsWith(s: string, c: char) {
    s != "" && s[0] == c
  }

  predicate EndsWith(s: string, c: char) {
    s != "" && s[|s| - 1] == c
  }

  // ---------- Trimming ----------

  lemma {:induction false} TrimStartHead(s: string)
    ensures |TrimStart(s)| <= |s|
    ensures TrimStart(s) != "" ==> !IsSpace(TrimStart(s)[0])
  {
    if s != "" && IsSpace(s[0]) {
      TrimStartHead(s[1..]);
    }
  }

  lemma {:induction false} TrimEndLast(s: string)
    ensures |TrimEnd(s)| <= |s| && TrimEnd(s) == s[..|TrimEnd(s)|]
    ensures TrimEnd(s) != "" ==> !IsSpace(TrimEnd(s)[|TrimEnd(s)| - 1])
  {
    if s != "" && IsSpace(s[|s| - 1]) {
      TrimEndLast(s[..|s| - 1]);
    }
  }

  lemma {:induction false} TrimEndKeepsHead(s: string)
    requires s != "" && !IsSpace(s[0])
    ensures TrimEnd(s) != "" && TrimEnd(s)[0] == s[0]
  {
    if IsSpace(s[|s| - 1]) {
      TrimEndKeepsHead(s[..|s| - 1]);
    }
  }

  lemma {:induction false} TrimStartSplits(s: string) returns (blank: string)
    ensures Blank(blank) && s == blank + TrimStart(s)
  {
    blank := "";
    if s != "" && IsSpace(s[0]) {
      var rest := TrimStartSplits(s[1..]);
      blank := [s[0]] + rest;
    }
  }

  lemma {:induction false} TrimEndSplits(s: string) returns (blank: string)
    ensures Blank(blank) && s == TrimEnd(s) + blank
  {
    blank := "";
    if s != "" && IsSpace(s[|s| - 1]) {
      var rest := TrimEndSplits(s[..|s| - 1]);
      blank := rest + [s[|s| - 1]];
    }
  }

  lemma {:induction false} TrimStartOfBlank(a: string, s: string)
    requires Blank(a)
    ensures TrimStart(a + s) == TrimStart(s)
  {
    if a == "" {
      assert a + s == s;
    } else {
      assert a[0] in a && (a + s)[1..] == a[1..] + s;
      TrimStartOfBlank(a[1..], s);
    }
  }

  lemma {:induction false} TrimEndOfBlank(s: string, b: string)
    requires Blank(b)
    ensures TrimEnd(s + b) == TrimEnd(s)
    decreases |b|
  {
    if b == "" {
      assert s + b == s;
    } else {
      var init := b[..|b| - 1];
      assert b[|b| - 1] in b && (s + b)[..|s + b| - 1] == s + init;
      TrimEndOfBlank(s, init);
    }
  }

  lemma TrimOfTight(s: string)
    requires Tight(s)
    ensures TrimStart(s) == TrimEnd(s) == Trim(s) == s
  {
  }

  lemma TrimIsTight(s: string)
    ensures Tight(Trim(s))
  {
    TrimStartHead(s);
    TrimEndLast(TrimStart(s));
  }

  /** Trimming removes blank ends and nothing else. */
  lemma TrimOfPadded(a: string, s: string, b: string)
    requires Blank(a) && Tight(s) && Blank(b)
    ensures Trim(a + s + b) == s
  {
    assert a + s + b == a + (s + b);
    TrimStartOfBlank(a, s + b);
    if s == "" {
      assert s + b == b && b + "" == b;
      TrimStartOfBlank(b, "");
    } else {
      assert TrimStart(s + b) == s + b;
      TrimEndOfBlank(s, b);
    }
  }

  lemma TrimSplits(s: string) returns (a: string, b: string)
    ensures Blank(a) && Blank(b) && s == a + Trim(s) + b
  {
    a := TrimStartSplits(s);
    b := TrimEndSplits(TrimStart(s));
  }

  lemma WordIsTight(s: string)
    requires IsWord(s)
    ensures Tight(s)
  {
    assert s[0] in s && s[|s| - 1] in s;
  }

  lemma BlankTrims(s: string)
    ensures Blank(s) <==> Trim(s) == ""
  {
    var a, b := TrimSplits(s);
    if Blank(s) {
      assert s + "" == s && "" + s == s;
      TrimOfPadded(s, "", "");
    }
  }

  // ---------- Words ----------

  function WordLength(s: string): (n: nat)
    ensures n <= |s|
  {
    if s == "" || IsSpace(s[0]) then 0 else 1 + WordLength(s[1..])
  }

  lemma {:induction false} WordLengthIs(s: string)
    ensures forall c :: c in s[..WordLength(s)] ==> !IsSpace(c)
    ensures WordLength(s) < |s| ==> IsSpace(s[WordLength(s)])
    ensures s != "" && !IsSpace(s[0]) ==> WordLength(s) > 0
  {
    if s != "" && !IsSpace(s[0]) {
      WordLengthIs(s[1..]);
      var n := WordLength(s[1..]);
      assert s[..n + 1] == [s[0]] + s[1..][..n];
    }
  }

  lemma {:induction false} WordLengthOf(w: string, rest: string)
    requires forall c :: c in w ==> !IsSpace(c)
    requires rest == "" || IsSpace(rest[0])
    ensures WordLength(w + rest) == |w|
  {
    if w == "" {
      assert w + rest == rest;
    } else {
      assert w[0] in w && (w + rest)[1..] == w[1..] + rest;
      WordLengthOf(w[1..], rest);
    }
  }

  /** The words of a text, in order. */
  function Words(s: string): seq<string>
    decreases |s|
  {
    TrimStartHead(s);
    WordLengthIs(TrimStart(s));
    var t := TrimStart(s);
    if t == "" then [] else [t[..WordLength(t)]] + Words(t[WordLength(t)..])
  }

  lemma {:induction false} WordsAreWords(s: string)
    ensures forall w :: w in Words(s) ==> IsWord(w)
    decreases |s|
  {
    var t := TrimStart(s);
    TrimStartHead(s);
    WordLengthIs(t);
    if t != "" {
      WordsAreWords(t[WordLength(t)..]);
    }
  }

  lemma WordsOfBlankStart(a: string, s: string)
    requires Blank(a)
    ensures Words(a + s) == Words(s)
  {
    TrimStartOfBlank(a, s);
  }

  /** A word, a space and the rest: the word comes first. */
  lemma WordsCons(w: string, rest: string)
    requires IsWord(w) && (rest == "" || IsSpace(rest[0]))
    ensures Words(w + rest) == [w] + Words(rest)
  {
    var s := w + rest;
    assert w[0] in w && TrimStart(s) == s;
    WordLengthOf(w, rest);
    assert s[..|w|] == w && s[|w|..] == rest;
  }

  /** Words do not run across a space. */
  lemma {:induction false} WordsSplit(a: string, c: char, b: string)
    requires IsSpace(c)
    ensures Words(a + [c] + b) == Words(a) + Words(b)
    decreases |a|, 1
  {
    var t := TrimStart(a);
    var blank := TrimStartSplits(a);
    TrimStartHead(a);
    assert a + [c] + b == blank + (t + [c] + b);
    WordsOfBlankStart(blank, t + [c] + b);
    WordsOfBlankStart(blank, t);
    if t == "" {
      assert t + [c] + b == [c] + b;
      WordsOfBlankStart([c], b);
    } else {
      WordsSplitHead(t, c, b);
    }
  }

  lemma {:induction false} WordsSplitHead(t: string, c: char, b: string)
    requires IsSpace(c) && t != "" && !IsSpace(t[0])
    ensures Words(t + [c] + b) == Words(t) + Words(b)
    decreases |t|, 0
  {
    WordLengthIs(t);
    var w, rest := t[..WordLength(t)], t[WordLength(t)..];
    WordsSplit(rest, c, b);
    WordsCons(w, rest);
    WordsCons(w, rest + [c] + b);
    assert w + rest == t;
    Reassociate(w, rest, [c]);
    Reassociate(w, rest + [c], b);
    Reassociate([w], Words(rest), Words(b));
  }

  lemma Reassociate<T>(a: seq<T>, b: seq<T>, c: seq<T>)
    ensures a + b + c == a + (b + c)
  {
  }

  // ---------- Joining ----------

  function Join(parts: seq<string>, separator: string): string {
    if parts == [] then ""
    else if |parts| == 1 then parts[0]
    else parts[0] + separator + Join(parts[1..], separator)
  }

  /** Words joined by single spaces read back as the same words. */
  lemma {:induction false} WordsOfJoin(words: seq<string>)
    requires forall w :: w in words ==> IsWord(w)
    ensures Words(Join(words, " ")) == words
  {
    if words != [] {
      assert words[0] in words;
      if |words| == 1 {
        assert words[0] + "" == words[0];
        WordsCons(words[0], "");
      } else {
        var rest := Join(words[1..], " ");
        WordsOfJoin(words[1..]);
        assert words[0] + " " + rest == words[0] + (" " + rest);
        WordsCons(words[0], " " + rest);
        WordsOfBlankStart(" ", rest);
      }
    }
  }

  lemma {:induction false} WordsOfJoinAppend(parts: seq<string>)
    ensures Words(Join(parts, " ")) == WordsOfAll(parts)
  {
    if |parts| > 1 {
      WordsSplit(parts[0], ' ', Join(parts[1..], " "));
      WordsOfJoinAppend(parts[1..]);
    } else if |parts| == 1 {
      assert WordsOfAll(parts[1..]) == [];
    }
  }

  function WordsOfAll(parts: seq<string>): seq<string> {
    if parts == [] then [] else Words(parts[0]) + WordsOfAll(parts[1..])
  }

  lemma {:induction false} JoinIsTight(words: seq<string>)
    requires forall w :: w in words ==> IsWord(w)
    ensures Tight(Join(words, " ")) && (words != [] ==> Join(words, " ") != "")
  {
    if words != [] {
      assert words[0] in words;
      WordIsTight(words[0]);
      if |words| > 1 {
        JoinIsTight(words[1..]);
      }
    }
  }

  // ---------- Key and value of a line ----------

  /** The first word of a trimmed line. */
  function KeyOf(line: string): string {
    line[..WordLength(line)]
  }

  /** What follows the first word and one whitespace character, trimmed. */
  function ValueOf(line: string): string {
    if WordLength(line) < |line| then Trim(line[WordLength(line) + 1..]) else ""
  }

  lemma KeyAndValue(key: string, rest: string)
    requires IsWord(key)
    ensures KeyOf(key + " " + rest) == key && ValueOf(key + " " + rest) == Trim(rest)
    ensures KeyOf(key) == key && ValueOf(key) == ""
  {
    var line := key + " " + rest;
    assert line == key + (" " + rest) && key + "" == key;
    WordLengthOf(key, " " + rest);
    WordLengthOf(key, "");
    assert line[|key| + 1..] == rest;
  }
}
