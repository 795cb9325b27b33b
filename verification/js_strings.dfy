/** The string operations of the ECMAScript standard library that the
    scaffolding script's file patches rely on: `split("\n")`, `join("\n")`,
    `indexOf` and `replace` with a string pattern. Strings are sequences of
    UTF-16 code units in JavaScript and sequences of `char` here. */
module JsStrings {

  /** A line as `split("\n")` produces it: free of newline characters. */
  predicate IsLine(s: string) {
    '\n' !in s
  }

  /** Every element is a line. */
  predicate AllLines(lines: seq<string>) {
    forall i :: 0 <= i < |lines| ==> IsLine(lines[i])
  }

  /** `lines.join("\n")`. */
  function Join(lines: seq<string>): (s: string)
    ensures |lines| == 1 ==> s == lines[0]
    decreases |lines|
  {
    if |lines| == 0 then ""
    else if |lines| == 1 then lines[0]
    else lines[0] + "\n" + Join(lines[1..])
  }

  /** `s.split("\n")`: the maximal newline-free pieces of `s`, in order. The
      result always holds at least one piece, even for the empty string. */
  function Split(s: string): (lines: seq<string>)
    ensures |lines| >= 1
    ensures AllLines(lines)
    decreases |s|
  {
    if |s| == 0 then [""]
    else
      var rest := Split(s[1..]);
      if s[0] == '\n' then [""] + rest
      else [[s[0]] + rest[0]] + rest[1..]
  }

  /** Joining the pieces of a split restores the string. */
  lemma {:induction false} JoinSplit(s: string)
    ensures Join(Split(s)) == s
    decreases |s|
  {
    if |s| > 0 {
      var rest := Split(s[1..]);
      JoinSplit(s[1..]);
      if s[0] == '\n' {
        assert Split(s) == [""] + rest;
        assert (([""] + rest)[1..]) == rest;
        assert s == [s[0]] + s[1..];
      } else {
        var first := [s[0]] + rest[0];
        assert Split(s) == [first] + rest[1..];
        if |rest| == 1 {
          assert [first] + rest[1..] == [first];
        } else {
          assert ([first] + rest[1..])[1..] == rest[1..];
          assert Join(rest) == rest[0] + "\n" + Join(rest[1..]);
        }
        assert s == [s[0]] + s[1..];
      }
    }
  }

  /** A newline-free piece followed by a newline splits off as one line. */
  lemma {:induction false} SplitLineThenNewline(w: string, t: string)
    requires IsLine(w)
    ensures Split(w + "\n" + t) == [w] + Split(t)
    decreases |w|
  {
    var s := w + "\n" + t;
    if |w| == 0 {
      assert s[1..] == t;
    } else {
      assert s[1..] == w[1..] + "\n" + t;
      SplitLineThenNewline(w[1..], t);
      assert [s[0]] + w[1..] == w;
    }
  }

  /** A newline-free string splits into itself. */
  lemma {:induction false} SplitLine(w: string)
    requires IsLine(w)
    ensures Split(w) == [w]
    decreases |w|
  {
    if |w| > 0 {
      SplitLine(w[1..]);
      assert [w[0]] + w[1..] == w;
    }
  }

  /** Splitting the join of non-empty, newline-free lines gives the lines back. */
  lemma {:induction false} SplitJoin(lines: seq<string>)
    requires |lines| >= 1
    requires AllLines(lines)
    ensures Split(Join(lines)) == lines
    decreases |lines|
  {
    if |lines| == 1 {
      SplitLine(lines[0]);
    } else {
      SplitJoin(lines[1..]);
      SplitLineThenNewline(lines[0], Join(lines[1..]));
      assert [lines[0]] + lines[1..] == lines;
    }
  }

  /** Joining a concatenation puts one newline between the two joins. */
  lemma {:induction false} JoinAppend(a: seq<string>, b: seq<string>)
    requires |a| >= 1 && |b| >= 1
    ensures Join(a + b) == Join(a) + "\n" + Join(b)
    decreases |a|
  {
    if |a| == 1 {
      assert (a + b)[1..] == b;
    } else {
      assert (a + b)[1..] == a[1..] + b;
      JoinAppend(a[1..], b);
    }
  }

  /** Inserting the join of `g` as a single element and then joining everything
      gives the same text as inserting the elements of `g` one by one. */
  lemma JoinFlattensElement(a: seq<string>, g: seq<string>, b: seq<string>)
    requires |g| >= 1
    ensures Join(a + [Join(g)] + b) == Join(a + g + b)
  {
    if |a| == 0 && |b| == 0 {
      assert a + [Join(g)] + b == [Join(g)];
      assert a + g + b == g;
    } else if |a| == 0 {
      assert a + [Join(g)] + b == [Join(g)] + b;
      assert a + g + b == g + b;
      JoinAppend([Join(g)], b);
      JoinAppend(g, b);
    } else if |b| == 0 {
      assert a + [Join(g)] + b == a + [Join(g)];
      assert a + g + b == a + g;
      JoinAppend(a, [Join(g)]);
      JoinAppend(a, g);
    } else {
      assert a + [Join(g)] + b == a + ([Join(g)] + b);
      assert a + g + b == a + (g + b);
      JoinAppend(a, [Join(g)] + b);
      JoinAppend([Join(g)], b);
      JoinAppend(a, g + b);
      JoinAppend(g, b);
    }
  }

  /** Two newline-free strings put together are still newline-free. */
  lemma LinesConcat(a: seq<string>, b: seq<string>)
    requires AllLines(a) && AllLines(b)
    ensures AllLines(a + b)
  {
    forall i | 0 <= i < |a + b|
      ensures IsLine((a + b)[i])
    {
      if i >= |a| {
        assert (a + b)[i] == b[i - |a|];
      } else {
        assert (a + b)[i] == a[i];
      }
    }
  }

  /** Splitting after the one-element splice of `mid`'s join recovers the
      lines of `pre`, `mid` and `post` side by side. */
  lemma SplitJoinSpliced(pre: seq<string>, mid: seq<string>, post: seq<string>)
    requires |mid| >= 1
    requires AllLines(pre) && AllLines(mid) && AllLines(post)
    ensures Split(Join(pre + [Join(mid)] + post)) == pre + mid + post
  {
    JoinFlattensElement(pre, mid, post);
    LinesConcat(pre, mid);
    LinesConcat(pre + mid, post);
    SplitJoin(pre + mid + post);
  }

  /** `t` occurs in `s` starting at position `i`. */
  predicate OccursAt(s: string, t: string, i: int) {
    0 <= i && i + |t| <= |s| && s[i..i + |t|] == t
  }

  /** The first occurrence of `t` in `s` at or after `from`, or -1. */
  function IndexFrom(s: string, t: string, from: nat): (r: int)
    requires from <= |s|
    ensures r == -1 || from <= r <= |s|
    ensures r == -1 ==> forall i :: from <= i <= |s| ==> !OccursAt(s, t, i)
    ensures r != -1 ==> OccursAt(s, t, r) && forall i :: from <= i < r ==> !OccursAt(s, t, i)
    decreases |s| - from
  {
    if OccursAt(s, t, from) then from
    else if from == |s| then -1
    else IndexFrom(s, t, from + 1)
  }

  /** `s.indexOf(t)`: the position of the first occurrence of `t` in `s`, or -1. */
  function IndexOf(s: string, t: string): (r: int)
    ensures r == -1 <==> forall i :: 0 <= i <= |s| ==> !OccursAt(s, t, i)
    ensures r != -1 ==> OccursAt(s, t, r) && forall i :: 0 <= i < r ==> !OccursAt(s, t, i)
  {
    IndexFrom(s, t, 0)
  }

  /** `s.replace(t, "")`: the first occurrence of `t` is cut out; when there is
      none the string is returned as it is. */
  function RemoveFirst(s: string, t: string): (r: string)
    ensures IndexOf(s, t) == -1 ==> r == s
    ensures IndexOf(s, t) != -1 ==>
              var k := IndexOf(s, t);
              |r| == |s| - |t| && r[..k] + t + r[k..] == s
  {
    var k := IndexOf(s, t);
    if k == -1 then s
    else
      var r := s[..k] + s[k + |t|..];
      assert r[..k] == s[..k] && r[k..] == s[k + |t|..];
      assert s == s[..k] + s[k..k + |t|] + s[k + |t|..];
      r
  }

  /** Only the first occurrence is removed: every later occurrence that does
      not overlap it is still there, shifted left by the length of `t`. */
  lemma LaterOccurrenceSurvives(s: string, t: string, j: int)
    requires IndexOf(s, t) != -1
    requires OccursAt(s, t, j) && j >= IndexOf(s, t) + |t|
    ensures OccursAt(RemoveFirst(s, t), t, j - |t|)
  {
    var k := IndexOf(s, t);
    var r := RemoveFirst(s, t);
    assert r == s[..k] + s[k + |t|..];
    assert r[j - |t|..j] == s[j..j + |t|];
  }
}
