/**
 The handful of Python 2 `str` operations that kube.py relies on, written as
 functions over `seq<char>`: `str.split()`, `str.splitlines()`, `str.strip()`,
 `sep.join(xs)`, the substring test `x in y` and `str(n)` for integers.
 Each comes with the property that gives it its meaning (a round trip or a
 characterisation), proved here once and used by the Kube module.
 */
module Text {

  /** Whitespace of a Python 2 byte string: space, tab, newline, vertical tab,
      form feed and carriage return ('\t' .. '\r' are code points 9 .. 13). */
  predicate IsSpace(c: char) {
    c == ' ' || '\t' <= c <= '\r'
  }

  /** No character of `s` is whitespace. */
  predicate NoSpace(s: string) {
    forall i :: 0 <= i < |s| ==> !IsSpace(s[i])
  }

  /** Every character of `s` is whitespace. */
  predicate AllSpace(s: string) {
    forall i :: 0 <= i < |s| ==> IsSpace(s[i])
  }

  /** `needle` occurs in `hay` starting at index `i`. */
  predicate OccursAt(hay: string, needle: string, i: int) {
    0 <= i <= |hay| - |needle| && hay[i..i + |needle|] == needle
  }

  predicate StartsWith(s: string, prefix: string) {
    |prefix| <= |s| && s[..|prefix|] == prefix
  }

  // ---------------------------------------------------------------------------
  // Substring test: Python's `needle in hay`
  // ---------------------------------------------------------------------------

  /** Python's `needle in hay` for strings: true iff `needle` occurs somewhere
      in `hay` (the empty string occurs everywhere). */
  function Contains(hay: string, needle: string): (r: bool)
    ensures r <==> exists i :: OccursAt(hay, needle, i)
    decreases |hay|
  {
    if StartsWith(hay, needle) then
      assert OccursAt(hay, needle, 0);
      true
    else if hay == [] then
      false
    else
      var r := Contains(hay[1..], needle);
      if r then
        var i :| OccursAt(hay[1..], needle, i);
        assert OccursAt(hay, needle, i + 1) by {
          assert hay[1..][i..i + |needle|] == hay[i + 1..i + 1 + |needle|];
        }
        true
      else
        assert forall i :: OccursAt(hay, needle, i) ==> OccursAt(hay[1..], needle, i - 1) by {
          forall i | OccursAt(hay, needle, i)
            ensures OccursAt(hay[1..], needle, i - 1)
          {
            assert i != 0;
            assert hay[1..][i - 1..i - 1 + |needle|] == hay[i..i + |needle|];
          }
        }
        false
  }

  /** A needle longer than the haystack is never found. */
  lemma ContainsNeedsRoom(hay: string, needle: string)
    requires |hay| < |needle|
    ensures !Contains(hay, needle)
  {
  }

  /** Regrouping four concatenated strings to the right. */
  lemma Regroup(a: string, b: string, c: string, d: string)
    ensures a + b + c + d == a + (b + (c + d))
  {
  }

  /** A string contains whatever it ends with. */
  lemma ContainsEnd(a: string, x: string)
    ensures Contains(a + x, x)
  {
    assert OccursAt(a + x, x, |a|) by {
      assert (a + x)[|a|..|a| + |x|] == x;
    }
  }

  /** Every string contains itself. */
  lemma ContainsSelf(x: string)
    ensures Contains(x, x)
  {
    assert OccursAt(x, x, 0) by {
      assert x[0..|x|] == x;
    }
  }

  /** Text appended at the end keeps everything that was contained. */
  lemma ContainsGrows(hay: string, b: string)
    ensures forall x :: Contains(hay, x) ==> Contains(hay + b, x)
  {
    forall x | Contains(hay, x) ensures Contains(hay + b, x) {
      var i :| OccursAt(hay, x, i);
      assert OccursAt(hay + b, x, i) by {
        assert (hay + b)[i..i + |x|] == hay[i..i + |x|];
      }
    }
  }

  // ---------------------------------------------------------------------------
  // Whitespace runs
  // ---------------------------------------------------------------------------

  /** Length of the run of whitespace that `s` starts with. */
  function SpaceRun(s: string): (n: nat)
    ensures n <= |s|
    ensures forall i :: 0 <= i < n ==> IsSpace(s[i])
    ensures n < |s| ==> !IsSpace(s[n])
  {
    if s == [] || !IsSpace(s[0]) then 0 else 1 + SpaceRun(s[1..])
  }

  /** Length of the run of non-whitespace that `s` starts with. */
  function WordRun(s: string): (n: nat)
    ensures n <= |s|
    ensures forall i :: 0 <= i < n ==> !IsSpace(s[i])
    ensures n < |s| ==> IsSpace(s[n])
  {
    if s == [] || IsSpace(s[0]) then 0 else 1 + WordRun(s[1..])
  }

  /** Length of the run of whitespace that `s` ends with. */
  function TrailingSpaceRun(s: string): (n: nat)
    ensures n <= |s|
    ensures forall i :: |s| - n <= i < |s| ==> IsSpace(s[i])
    ensures n < |s| ==> !IsSpace(s[|s| - n - 1])
  {
    if s == [] || !IsSpace(s[|s| - 1]) then 0 else 1 + TrailingSpaceRun(s[..|s| - 1])
  }

  // ---------------------------------------------------------------------------
  // str.strip()
  // ---------------------------------------------------------------------------

  /** Python's `s.strip()`: `s` without its leading and trailing whitespace. */
  function Strip(s: string): (r: string)
    ensures r == [] <==> AllSpace(s)
    ensures r != [] ==> !IsSpace(r[0]) && !IsSpace(r[|r| - 1])
    ensures exists i :: OccursAt(s, r, i) && AllSpace(s[..i]) && AllSpace(s[i + |r|..])
  {
    var i := SpaceRun(s);
    if i == |s| then
      assert OccursAt(s, [], |s|);
      assert AllSpace(s[..|s|]);
      []
    else
      var j := TrailingSpaceRun(s);
      assert j < |s| - i by {
        assert !IsSpace(s[i]);
      }
      var r := s[i..|s| - j];
      assert OccursAt(s, r, i);
      assert s[i + |r|..] == s[|s| - j..];
      r
  }

  /** Stripping is idempotent: a stripped string has nothing left to strip. */
  lemma StripIdempotent(s: string)
    ensures Strip(Strip(s)) == Strip(s)
  {
    var r := Strip(s);
    if r != [] {
      assert SpaceRun(r) == 0;
      assert TrailingSpaceRun(r) == 0;
      assert r[0..|r| - 0] == r;
    }
  }

  // ---------------------------------------------------------------------------
  // sep.join(xs)
  // ---------------------------------------------------------------------------

  /** Python's `sep.join(xs)`. */
  function Join(sep: string, xs: seq<string>): (r: string)
    ensures |xs| == 1 ==> r == xs[0]
    ensures xs == [] ==> r == []
  {
    if xs == [] then []
    else if |xs| == 1 then xs[0]
    else xs[0] + sep + Join(sep, xs[1..])
  }

  /** Joining one more string adds the separator and that string at the end. */
  lemma {:induction false} JoinSnoc(sep: string, xs: seq<string>, x: string)
    requires xs != []
    ensures Join(sep, xs + [x]) == Join(sep, xs) + sep + x
  {
    if |xs| > 1 {
      assert (xs + [x])[1..] == xs[1..] + [x];
      JoinSnoc(sep, xs[1..], x);
    } else {
      assert (xs + [x])[1..] == [x];
    }
  }

  // ---------------------------------------------------------------------------
  // str.split()
  // ---------------------------------------------------------------------------

  /** A word as `str.split()` produces it: non-empty and free of whitespace. */
  predicate IsWord(w: string) {
    w != [] && NoSpace(w)
  }

  /** Python's `s.split()` with no separator: the maximal runs of
      non-whitespace characters, in order. Leading whitespace is skipped one
      character at a time; a word is the run of non-whitespace it starts. */
  function Split(s: string): (r: seq<string>)
    ensures forall k :: 0 <= k < |r| ==> IsWord(r[k])
    ensures r == [] <==> AllSpace(s)
    decreases |s|
  {
    if s == [] then
      []
    else if IsSpace(s[0]) then
      var r := Split(s[1..]);
      assert AllSpace(s) <==> AllSpace(s[1..]) by {
        assert forall k :: 0 < k < |s| ==> s[k] == s[1..][k - 1];
      }
      r
    else
      var j := WordRun(s);
      assert IsWord(s[..j]);
      [s[..j]] + Split(s[j..])
  }

  /** A string of whitespace only has no words. */
  lemma SplitAllSpace(s: string)
    requires AllSpace(s)
    ensures Split(s) == []
  {
  }

  /** Leading whitespace does not change the words of a string. */
  lemma SplitSkipsSpace(c: char, s: string)
    requires IsSpace(c)
    ensures Split([c] + s) == Split(s)
  {
    assert ([c] + s)[1..] == s;
  }

  /** The run of non-whitespace at the start of `w + t` is exactly `w` when `w`
      is a word and `t` is empty or starts with whitespace. */
  lemma {:induction false} WordRunOfWord(w: string, t: string)
    requires NoSpace(w)
    requires t == [] || IsSpace(t[0])
    ensures WordRun(w + t) == |w|
    decreases |w|
  {
    if w != [] {
      assert (w + t)[1..] == w[1..] + t;
      WordRunOfWord(w[1..], t);
    } else {
      assert w + t == t;
    }
  }

  /** The words of `w + t` are `w` followed by the words of `t`, when `t` is
      empty or starts with whitespace. */
  lemma SplitWordThen(w: string, t: string)
    requires IsWord(w)
    requires t == [] || IsSpace(t[0])
    ensures Split(w + t) == [w] + Split(t)
  {
    var s := w + t;
    assert !IsSpace(s[0]);
    WordRunOfWord(w, t);
    assert s[..|w|] == w;
    assert s[|w|..] == t;
  }

  /** A word, a space, then more text: the word comes first, then the words
      of the text. */
  lemma SplitWordSpace(w: string, rest: string)
    requires IsWord(w)
    ensures Split(w + (" " + rest)) == [w] + Split(rest)
  {
    SplitWordThen(w, " " + rest);
    SplitSkipsSpace(' ', rest);
  }

  /** Round trip: splitting words joined by single spaces gives the words back. */
  lemma SplitJoin(words: seq<string>)
    requires forall k :: 0 <= k < |words| ==> IsWord(words[k])
    ensures Split(Join(" ", words)) == words
  {
    SplitJoinThen(words, []);
    assert Join(" ", words) + [] == Join(" ", words);
    assert words + Split([]) == words;
  }

  /** A line of words joined by single spaces and ended by a newline splits
      into those words. */
  lemma SplitJoinNewline(words: seq<string>)
    requires forall k :: 0 <= k < |words| ==> IsWord(words[k])
    ensures Split(Join(" ", words) + "\n") == words
  {
    SplitJoinThen(words, "\n");
    SplitAllSpace("\n");
  }

  /** The words after the first are words too. */
  lemma TailWords(words: seq<string>)
    requires words != []
    requires forall k :: 0 <= k < |words| ==> IsWord(words[k])
    ensures forall k :: 0 <= k < |words| - 1 ==> IsWord(words[1..][k])
  {
    forall k | 0 <= k < |words| - 1 ensures IsWord(words[1..][k]) {
      assert words[1..][k] == words[k + 1];
    }
  }

  /** Words joined by single spaces and followed by text that is empty or
      starts with whitespace: the words, then the words of that text. */
  lemma {:induction false} SplitJoinThen(words: seq<string>, t: string)
    requires forall k :: 0 <= k < |words| ==> IsWord(words[k])
    requires t == [] || IsSpace(t[0])
    ensures Split(Join(" ", words) + t) == words + Split(t)
  {
    if words == [] {
      assert Join(" ", words) + t == t;
    } else if |words| == 1 {
      SplitWordThen(words[0], t);
      assert words == [words[0]];
    } else {
      TailWords(words);
      SplitJoinThen(words[1..], t);
      JoinCons(words, t);
      SplitJoinCons(words, Split(t), Join(" ", words[1..]) + t);
    }
  }

  /** Joined words followed by more text are the first word, a space, then
      the rest. */
  lemma JoinCons(words: seq<string>, t: string)
    requires |words| > 1
    ensures Join(" ", words) + t == words[0] + (" " + (Join(" ", words[1..]) + t))
  {
    assert Join(" ", words) == words[0] + " " + Join(" ", words[1..]);
    Regroup(words[0], " ", Join(" ", words[1..]), t);
  }

  /** The inductive step of `SplitJoinThen`: the first word comes off the
      front, and the rest is as the hypothesis says. */
  lemma SplitJoinCons(words: seq<string>, more: seq<string>, rest: string)
    requires words != [] && IsWord(words[0])
    requires Split(rest) == words[1..] + more
    ensures Split(words[0] + (" " + rest)) == words + more
  {
    var w, tail := words[0], words[1..];
    SplitWordSpace(w, rest);
    assert [w] + (tail + more) == ([w] + tail) + more;
    assert words == [w] + tail;
  }

  /** `' '.join(words[-2:])` in Python: the last two words joined by a space
      (or all of them when there are fewer than two). */
  function LastTwo(words: seq<string>): (r: seq<string>)
    ensures |r| == if |words| < 2 then |words| else 2
    ensures |words| < 2 ==> r == words
    ensures |words| >= 2 ==> r == [words[|words| - 2], words[|words| - 1]]
  {
    if |words| < 2 then words else words[|words| - 2..]
  }

  /** The test `' '.join(err.split()[-2:]) == 'not found'`. */
  predicate EndsWithNotFound(err: string) {
    Join(" ", LastTwo(Split(err))) == "not found"
  }

  /** Two words joined by a space spell "not found" only as "not" and "found". */
  lemma JoinedNotFound(a: string, b: string)
    requires NoSpace(a) && NoSpace(b)
    ensures a + " " + b == "not found" <==> a == "not" && b == "found"
  {
    var j := a + " " + b;
    var target := "not found";
    if j == target {
      assert j == a + (" " + b);
      WordRunOfWord(a, " " + b);
      assert target == "not" + " found";
      WordRunOfWord("not", " found");
      assert a == j[..3];
      assert b == j[4..];
    }
  }

  /** `EndsWithNotFound(err)` holds exactly when the last two words of `err`
      are "not" and "found". */
  lemma EndsWithNotFoundMeans(err: string)
    ensures var w := Split(err);
      EndsWithNotFound(err) <==> |w| >= 2 && w[|w| - 2] == "not" && w[|w| - 1] == "found"
  {
    var w := Split(err);
    if |w| == 1 {
      assert Join(" ", LastTwo(w)) == w[0];
      assert "not found"[3] == ' ';
    } else if |w| >= 2 {
      var a, b := w[|w| - 2], w[|w| - 1];
      var l := LastTwo(w);
      assert l == [a, b];
      assert l[1..] == [b];
      assert Join(" ", l) == a + " " + b;
      JoinedNotFound(a, b);
    }
  }

  /** "not" and "found" are words. */
  lemma NotFoundWords()
    ensures IsWord("not") && IsWord("found")
  {
    var n, f := "not", "found";
    forall i | 0 <= i < |n| ensures !IsSpace(n[i]) {
      if i == 0 {} else if i == 1 {} else {}
    }
    forall i | 0 <= i < |f| ensures !IsSpace(f[i]) {
      if i == 0 {} else if i == 1 {} else if i == 2 {} else if i == 3 {} else {}
    }
  }

  /** Words followed by "not" and "found" are all words. */
  lemma WordsThenNotFound(prefix: seq<string>)
    requires forall k :: 0 <= k < |prefix| ==> IsWord(prefix[k])
    ensures var w := prefix + ["not", "found"];
      forall k :: 0 <= k < |w| ==> IsWord(w[k])
  {
    var w := prefix + ["not", "found"];
    NotFoundWords();
    forall k | 0 <= k < |w| ensures IsWord(w[k]) {
      if k < |prefix| { assert w[k] == prefix[k]; }
    }
  }

  /** Any words followed by "not" and "found", joined by spaces and ended
      by whitespace such as a newline, pass the test. */
  lemma EndsWithNotFoundJoin(prefix: seq<string>, tail: string)
    requires forall k :: 0 <= k < |prefix| ==> IsWord(prefix[k])
    requires AllSpace(tail)
    ensures EndsWithNotFound(Join(" ", prefix + ["not", "found"]) + tail)
  {
    var w := prefix + ["not", "found"];
    WordsThenNotFound(prefix);
    SplitJoinThen(w, tail);
    SplitAllSpace(tail);
    assert Split(Join(" ", w) + tail) == w;
    EndsWithNotFoundMeans(Join(" ", w) + tail);
  }

  /** Words joined by single spaces hold no line boundary. */
  lemma {:induction false} JoinedWordsOneLine(words: seq<string>)
    requires forall k :: 0 <= k < |words| ==> IsWord(words[k])
    ensures NoLineBreak(Join(" ", words))
  {
    if |words| > 1 {
      TailWords(words);
      JoinedWordsOneLine(words[1..]);
      var w, rest := words[0], Join(" ", words[1..]);
      assert Join(" ", words) == w + " " + rest;
      forall i | 0 <= i < |w + " " + rest| ensures !IsLineBreak((w + " " + rest)[i]) {
        if i < |w| {
          assert !IsSpace(w[i]);
        } else if i > |w| {
          assert (w + " " + rest)[i] == rest[i - |w| - 1];
        }
      }
    } else if |words| == 1 {
      forall i | 0 <= i < |words[0]| ensures !IsLineBreak(words[0][i]) {
        assert !IsSpace(words[0][i]);
      }
    }
  }

  // ---------------------------------------------------------------------------
  // str.splitlines()
  // ---------------------------------------------------------------------------

  /** Line boundaries of a Python 2 byte string: "\n", "\r" (and "\r\n"). */
  predicate IsLineBreak(c: char) {
    c == '\n' || c == '\r'
  }

  predicate NoLineBreak(s: string) {
    forall i :: 0 <= i < |s| ==> !IsLineBreak(s[i])
  }

  /** Length of the text before the first line boundary of `s`. */
  function LineRun(s: string): (n: nat)
    ensures n <= |s|
    ensures forall i :: 0 <= i < n ==> !IsLineBreak(s[i])
    ensures n < |s| ==> IsLineBreak(s[n])
  {
    if s == [] || IsLineBreak(s[0]) then 0 else 1 + LineRun(s[1..])
  }

  /** Python 2's `s.splitlines()`: the lines of `s` without their terminators;
      a final terminator does not start an extra empty line. */
  function SplitLines(s: string): (r: seq<string>)
    ensures r == [] <==> s == []
    ensures forall k :: 0 <= k < |r| ==> NoLineBreak(r[k])
    decreases |s|
  {
    if s == [] then
      []
    else
      var i := LineRun(s);
      if i == |s| then
        [s]
      else
        var skip := if s[i] == '\r' && i + 1 < |s| && s[i + 1] == '\n' then 2 else 1;
        [s[..i]] + SplitLines(s[i + skip..])
  }

  /** The three line terminators of a Python 2 byte string. */
  predicate IsTerminator(t: string) {
    t == "\n" || t == "\r\n" || t == "\r"
  }

  /** Lines each followed by the terminator `t`, as a tool writes them. */
  function Terminated(lines: seq<string>, t: string): string {
    if lines == [] then [] else lines[0] + t + Terminated(lines[1..], t)
  }

  /** A line with no boundary in it is returned whole. */
  lemma SplitLinesOneLine(s: string)
    requires s != [] && NoLineBreak(s)
    ensures SplitLines(s) == [s]
  {
    assert LineRun(s) == |s|;
  }

  /** The run before the first line boundary of `l + t` is exactly `l`, when
      `l` has no boundary and `t` starts with one. */
  lemma {:induction false} LineRunOfLine(l: string, t: string)
    requires NoLineBreak(l)
    requires t != [] && IsLineBreak(t[0])
    ensures LineRun(l + t) == |l|
    decreases |l|
  {
    if l != [] {
      assert (l + t)[1..] == l[1..] + t;
      LineRunOfLine(l[1..], t);
    } else {
      assert l + t == t;
    }
  }

  /** One line and its terminator come off the front as one line; "\r\n"
      is a single boundary, and a lone "\r" is one as long as no "\n"
      follows it. */
  lemma SplitLinesAfter(l: string, t: string, rest: string)
    requires NoLineBreak(l) && IsTerminator(t)
    requires t == "\r" ==> rest == [] || rest[0] != '\n'
    ensures SplitLines(l + (t + rest)) == [l] + SplitLines(rest)
  {
    var s := l + (t + rest);
    var i := |l|;
    LineRunOfLine(l, t + rest);
    assert s[..i] == l;
    assert s[i] == t[0];
    if t == "\r\n" {
      assert s[i + 1] == '\n';
    } else if t == "\r" && i + 1 < |s| {
      assert s[i + 1] == rest[0];
    }
    assert s[i + |t|..] == rest;
    SplitLinesStep(s, i, |t|);
  }

  /** One step of `SplitLines`: the first line, then the lines after its
      terminator. */
  lemma SplitLinesStep(s: string, i: nat, skip: nat)
    requires i == LineRun(s) < |s|
    requires skip == if s[i] == '\r' && i + 1 < |s| && s[i + 1] == '\n' then 2 else 1
    ensures SplitLines(s) == [s[..i]] + SplitLines(s[i + skip..])
  {
  }

  /** Text made of "\r"-terminated lines never starts with "\n", so a "\r"
      before it stays a boundary of its own. */
  lemma TerminatedStart(lines: seq<string>, t: string, last: string)
    requires t == "\r"
    requires forall k :: 0 <= k < |lines| ==> NoLineBreak(lines[k])
    requires NoLineBreak(last)
    ensures Terminated(lines, t) + last == [] || (Terminated(lines, t) + last)[0] != '\n'
  {
    if lines != [] {
      var l := lines[0];
      var m := Terminated(lines[1..], t) + last;
      assert Terminated(lines, t) + last == l + (t + m);
      if l != [] {
        assert !IsLineBreak(l[0]);
      }
    } else if last != [] {
      assert !IsLineBreak(last[0]);
    }
  }

  /** Round trip: splitting lines, each ended by the same terminator, with
      an optional unterminated last line, gives the lines back. */
  lemma {:induction false} SplitLinesTerminated(lines: seq<string>, t: string, last: string)
    requires IsTerminator(t)
    requires forall k :: 0 <= k < |lines| ==> NoLineBreak(lines[k])
    requires NoLineBreak(last)
    ensures SplitLines(Terminated(lines, t) + last) == lines + (if last == [] then [] else [last])
  {
    if lines == [] {
      assert Terminated(lines, t) + last == last;
      if last != [] {
        SplitLinesOneLine(last);
      }
    } else {
      assert forall k :: 0 <= k < |lines| - 1 ==> NoLineBreak(lines[1..][k]) by {
        forall k | 0 <= k < |lines| - 1 ensures NoLineBreak(lines[1..][k]) {
          assert lines[1..][k] == lines[k + 1];
        }
      }
      if t == "\r" {
        TerminatedStart(lines[1..], t, last);
      }
      SplitLinesTerminated(lines[1..], t, last);
      TerminatedCons(lines, t, last);
      SplitLinesCons(lines, t, if last == [] then [] else [last], Terminated(lines[1..], t) + last);
    }
  }

  /** One line ended by a newline is that one line. */
  lemma SplitLinesNewline(line: string)
    requires NoLineBreak(line)
    ensures SplitLines(line + "\n") == [line]
  {
    SplitLinesAfter(line, "\n", []);
    assert line + ("\n" + []) == line + "\n";
  }

  /** Terminated text is the first line, its terminator, then the rest. */
  lemma TerminatedCons(lines: seq<string>, t: string, last: string)
    requires lines != []
    ensures Terminated(lines, t) + last == lines[0] + (t + (Terminated(lines[1..], t) + last))
  {
    assert Terminated(lines, t) == lines[0] + t + Terminated(lines[1..], t);
    Regroup(lines[0], t, Terminated(lines[1..], t), last);
  }

  /** The inductive step of `SplitLinesTerminated`: the first line and its
      terminator come off the front, and the rest is as the hypothesis says. */
  lemma SplitLinesCons(lines: seq<string>, t: string, more: seq<string>, rest: string)
    requires IsTerminator(t) && lines != [] && NoLineBreak(lines[0])
    requires t == "\r" ==> rest == [] || rest[0] != '\n'
    requires SplitLines(rest) == lines[1..] + more
    ensures SplitLines(lines[0] + (t + rest)) == lines + more
  {
    var l, tail := lines[0], lines[1..];
    SplitLinesAfter(l, t, rest);
    assert [l] + (tail + more) == ([l] + tail) + more;
    assert lines == [l] + tail;
  }

  // ---------------------------------------------------------------------------
  // str(n) for integers
  // ---------------------------------------------------------------------------

  /** An ASCII decimal digit. */
  predicate IsDigit(c: char) {
    '0' <= c <= '9'
  }

  /** The character of the digit `d`. */
  function DigitChar(d: nat): (c: char)
    requires d < 10
    ensures IsDigit(c) && c as int == '0' as int + d
  {
    ('0' as int + d) as char
  }

  /** The value of a digit character. */
  function DigitValue(c: char): nat
    requires IsDigit(c)
  {
    (c as int - '0' as int) as nat
  }

  /** Decimal notation of a natural number, most significant digit first. */
  function NatToString(n: nat): (r: string)
    ensures r != []
    ensures forall i :: 0 <= i < |r| ==> IsDigit(r[i])
    ensures r[0] == '0' ==> n == 0 && r == "0"
  {
    if n < 10 then [DigitChar(n)] else NatToString(n / 10) + [DigitChar(n % 10)]
  }

  /** Python's `str(i)` (and `'%d' % i`) for an integer. */
  function IntToString(i: int): (r: string)
    ensures r != []
  {
    if i < 0 then "-" + NatToString(-i) else NatToString(i)
  }

  /** Reads a string of decimal digits back into a number. */
  function ParseDigits(s: string): nat
    requires forall i :: 0 <= i < |s| ==> IsDigit(s[i])
  {
    if s == [] then 0 else 10 * ParseDigits(s[..|s| - 1]) + DigitValue(s[|s| - 1])
  }

  /** Round trip: the decimal notation reads back as the number it denotes. */
  lemma {:induction false} ParseNatToString(n: nat)
    ensures ParseDigits(NatToString(n)) == n
  {
    if n >= 10 {
      var s := NatToString(n);
      assert s[..|s| - 1] == NatToString(n / 10);
      ParseNatToString(n / 10);
    }
  }

  /** Round trip for any integer: a leading '-' exactly for negative numbers,
      followed by the digits of the magnitude. */
  lemma IntToStringReadsBack(i: int)
    ensures var r := IntToString(i);
      && (r[0] == '-' <==> i < 0)
      && (i < 0 ==> ParseDigits(r[1..]) == -i)
      && (i >= 0 ==> ParseDigits(r) == i)
      && (i < 0 ==> r[1] != '0')
      && (r[0] == '0' ==> i == 0)
      && (i == 0 ==> r == "0")
  {
    var r := IntToString(i);
    if i < 0 {
      var d := NatToString(-i);
      assert r == "-" + d;
      assert r[1..] == d;
      ParseNatToString(-i);
    } else {
      ParseNatToString(i);
      assert IsDigit(r[0]);
    }
  }
}
