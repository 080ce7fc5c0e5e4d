/**
  The few `java.lang.String` operations (and `StringUtils.isBlank`) that the
  breakpoint resolver and the stack-trace handler rely on, stated over
  `seq<char>`.
 */
module JavaStrings {
  import opened Basics

  /** `s.startsWith(prefix)`. */
  predicate StartsWith(s: string, prefix: string) {
    |prefix| <= |s| && s[..|prefix|] == prefix
  }

  /** `s.endsWith(suffix)`. */
  predicate EndsWith(s: string, suffix: string) {
    |suffix| <= |s| && s[|s| - |suffix|..] == suffix
  }

  /** A string that ends with a non-empty suffix ends with the suffix's last character. */
  lemma EndsWithLast(s: string, suffix: string)
    requires |suffix| > 0
    ensures EndsWith(s, suffix) ==> s[|s| - 1] == suffix[|suffix| - 1]
  {
    if EndsWith(s, suffix) {
      assert s[|s| - |suffix|..][|suffix| - 1] == s[|s| - 1];
    }
  }

  /** `s.indexOf(c)`: the first position of `c` in `s`, or -1 when there is none. */
  function IndexOf(s: string, c: char): (i: int)
    ensures -1 <= i < |s|
    ensures i == -1 <==> c !in s
    ensures 0 <= i ==> s[i] == c && c !in s[..i]
  {
    if s == [] then -1
    else if s[0] == c then 0
    else
      var j := IndexOf(s[1..], c);
      if j == -1 then -1
      else
        assert s[..j + 1] == [s[0]] + s[1..][..j];
        j + 1
  }

  /** `s.lastIndexOf(c)`: the last position of `c` in `s`, or -1 when there is none. */
  function LastIndexOf(s: string, c: char): (i: int)
    ensures -1 <= i < |s|
    ensures i == -1 <==> c !in s
    ensures 0 <= i ==> s[i] == c && c !in s[i + 1..]
  {
    if s == [] then -1
    else if s[|s| - 1] == c then |s| - 1
    else
      var i := LastIndexOf(s[..|s| - 1], c);
      assert s == s[..|s| - 1] + [s[|s| - 1]];
      assert 0 <= i ==> s[i + 1..] == s[..|s| - 1][i + 1..] + [s[|s| - 1]];
      i
  }

  /** `s.replace(from, to)` for single characters. */
  function Replace(s: string, from: char, to: char): (r: string)
    ensures |r| == |s|
    ensures forall i {:trigger r[i]} :: 0 <= i < |s| ==> r[i] == if s[i] == from then to else s[i]
  {
    if s == [] then []
    else [if s[0] == from then to else s[0]] + Replace(s[1..], from, to)
  }

  /** Replacing a character leaves alone a suffix that does not hold it. */
  lemma ReplaceSparesSuffix(s: string, from: char, to: char, k: int)
    requires -1 <= k < |s| && from !in s[k + 1..]
    ensures Replace(s, from, to)[k + 1..] == s[k + 1..]
  {
    forall i | k + 1 <= i < |s| ensures Replace(s, from, to)[i] == s[i] {
      assert s[i] == s[k + 1..][i - k - 1];
    }
  }

  /**
    Replacing `from` and appending `ext` keeps the text after the last
    `from` (plus `ext`) at the end, right after the replacement of that `from`.
   */
  lemma ReplaceKeepsLastSegment(s: string, from: char, to: char, ext: string)
    ensures var k := LastIndexOf(s, from);
      var p := Replace(s, from, to) + ext;
      && EndsWith(p, s[k + 1..] + ext)
      && |p| - |s[k + 1..] + ext| == k + 1
      && (k >= 0 ==> p[k] == to)
  {
    var k := LastIndexOf(s, from);
    var r := Replace(s, from, to);
    assert r[k + 1..] == s[k + 1..] by {
      ReplaceSparesSuffix(s, from, to, k);
    }
    assert (r + ext)[k + 1..] == r[k + 1..] + ext;
    if k >= 0 {
      assert (r + ext)[k] == to by {
        assert r[k] == to;
      }
    }
  }

  /** `String.join(sep, xs)`. */
  function Join(xs: seq<string>, sep: string): string {
    if xs == [] then ""
    else if |xs| == 1 then xs[0]
    else xs[0] + sep + Join(xs[1..], sep)
  }

  /** Every piece between occurrences of `c`, empty pieces included. */
  function Split(s: string, c: char): (parts: seq<string>)
    ensures |parts| >= 1
    ensures forall p :: p in parts ==> c !in p
    ensures Join(parts, [c]) == s
    ensures parts[0] == if c in s then s[..IndexOf(s, c)] else s
    decreases |s|
  {
    if c !in s then [s]
    else
      var i := IndexOf(s, c);
      var rest := Split(s[i + 1..], c);
      assert ([s[..i]] + rest)[1..] == rest;
      assert s == s[..i] + [c] + s[i + 1..];
      [s[..i]] + rest
  }

  /** `xs` without the empty strings at its end. */
  function DropTrailingEmpty(xs: seq<string>): (r: seq<string>)
    ensures |r| <= |xs| && r == xs[..|r|]
    ensures r == [] || r[|r| - 1] != ""
    ensures forall i :: |r| <= i < |xs| ==> xs[i] == ""
  {
    if xs == [] || xs[|xs| - 1] != "" then xs
    else DropTrailingEmpty(xs[..|xs| - 1])
  }

  /**
    Java's `s.split(c)` (a one-character regular expression, limit 0): the
    input itself when `c` does not occur, otherwise the pieces without the
    trailing empty ones.
   */
  function JavaSplit(s: string, c: char): seq<string> {
    if c !in s then [s] else DropTrailingEmpty(Split(s, c))
  }

  /** The first piece of a Java split that has one: the text before the first `c`. */
  lemma JavaSplitHead(s: string, c: char)
    requires |JavaSplit(s, c)| >= 1
    ensures JavaSplit(s, c)[0] == if c in s then s[..IndexOf(s, c)] else s
  {
    if c in s {
      assert JavaSplit(s, c) == DropTrailingEmpty(Split(s, c));
    }
  }

  /** A prefix free of `c` survives cutting `s` at its first `c`. */
  lemma {:induction false} PrefixBeforeIndex(s: string, prefix: string, c: char)
    requires StartsWith(s, prefix) && c !in prefix && c in s
    ensures StartsWith(s[..IndexOf(s, c)], prefix)
  {
    var i := IndexOf(s, c);
    forall k | 0 <= k < |prefix| ensures s[k] != c {
      assert s[k] == s[..|prefix|][k];
    }
    assert |prefix| <= i;
    assert s[..i][..|prefix|] == s[..|prefix|];
  }

  /** The first `c` in `x + [c] + rest` is the one after `x` when `x` holds none. */
  lemma {:induction false} IndexOfAfter(x: string, c: char, rest: string)
    requires c !in x
    ensures IndexOf(x + [c] + rest, c) == |x|
  {
    var s := x + [c] + rest;
    if x != [] {
      assert s[0] == x[0];
      assert s[1..] == x[1..] + [c] + rest;
      IndexOfAfter(x[1..], c, rest);
    }
  }

  /** Splitting a joined list gives the list back when no element holds the separator. */
  lemma {:induction false} SplitJoin(xs: seq<string>, c: char)
    requires |xs| >= 1
    requires forall x :: x in xs ==> c !in x
    ensures Split(Join(xs, [c]), c) == xs
  {
    if |xs| > 1 {
      var s := Join(xs, [c]);
      var x := xs[0];
      var tail := Join(xs[1..], [c]);
      assert s == x + [c] + tail;
      IndexOfAfter(x, c, tail);
      assert s[|x|] == c;
      assert s[..|x|] == x && s[|x| + 1..] == tail;
      assert Split(s, c) == [x] + Split(tail, c);
      SplitJoin(xs[1..], c);
      assert xs == [x] + xs[1..];
    }
  }

  /**
    A parenthesised, comma-joined list after a name free of '(' is cut back
    out at the first '(': the name before it, the list between it and the
    last character.
   */
  lemma CutEnclosed(name: string, xs: seq<string>)
    requires '(' !in name
    ensures var r := name + "(" + Join(xs, ",") + ")";
      var open := IndexOf(r, '(');
      && 0 <= open < |r| - 1
      && r[..open] == name
      && r[open + 1..|r| - 1] == Join(xs, ",")
    ensures |xs| >= 1 && (forall x :: x in xs ==> ',' !in x) ==>
      var r := name + "(" + Join(xs, ",") + ")";
      Split(r[IndexOf(r, '(') + 1..|r| - 1], ',') == xs
  {
    var joined := Join(xs, ",");
    var r := name + "(" + joined + ")";
    assert IndexOf(r, '(') == |name| by {
      assert r == name + ['('] + (joined + [')']);
      IndexOfAfter(name, '(', joined + [')']);
    }
    assert r[..|name|] == name;
    assert r[|name| + 1..|r| - 1] == joined;
    if |xs| >= 1 && forall x :: x in xs ==> ',' !in x {
      SplitJoin(xs, ',');
    }
  }

  /** Java's `Character.isWhitespace`. */
  predicate IsWhitespace(c: char) {
    var n := c as int;
    || 0x09 <= n <= 0x0D || 0x1C <= n <= 0x20
    || n == 0x1680 || 0x2000 <= n <= 0x2006 || 0x2008 <= n <= 0x200A
    || n == 0x2028 || n == 0x2029 || n == 0x205F || n == 0x3000
  }

  /** `StringUtils.isBlank`: null, empty, or nothing but whitespace. */
  predicate IsBlank(s: Option<string>) {
    s.None? || forall i :: 0 <= i < |s.value| ==> IsWhitespace(s.value[i])
  }
}
