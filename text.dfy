/** Text primitives the report formatter relies on: Python's str.strip(), the
    "\t\t" field join, the repeated rule character and newline-terminated
    lines, each with the inverse or characterisation that pins it down. */
module Text {

  /** Python's str.isspace() characters: exactly those that str.strip()
      removes when it is called without arguments. */
  const Whitespace: seq<char> := [
    '\t', '\n', '\U{B}', '\U{C}', '\r', '\U{1C}', '\U{1D}', '\U{1E}', '\U{1F}', ' ',
    '\U{85}', '\U{A0}', '\U{1680}',
    '\U{2000}', '\U{2001}', '\U{2002}', '\U{2003}', '\U{2004}', '\U{2005}',
    '\U{2006}', '\U{2007}', '\U{2008}', '\U{2009}', '\U{200A}',
    '\U{2028}', '\U{2029}', '\U{202F}', '\U{205F}', '\U{3000}'
  ]

  function OneOf(c: char, cs: seq<char>): bool
  {
    cs != [] && (c == cs[0] || OneOf(c, cs[1..]))
  }

  predicate IsSpace(c: char) {
    OneOf(c, Whitespace)
  }

  predicate AllSpace(s: string) {
    forall i :: 0 <= i < |s| ==> IsSpace(s[i])
  }

  /** Drops leading whitespace. */
  function TrimLeft(s: string): string
  {
    if s != [] && IsSpace(s[0]) then TrimLeft(s[1..]) else s
  }

  /** Drops trailing whitespace. */
  function TrimRight(s: string): string
  {
    if s != [] && IsSpace(s[|s| - 1]) then TrimRight(s[..|s| - 1]) else s
  }

  /** Python's s.strip(). */
  function Strip(s: string): string
  {
    TrimRight(TrimLeft(s))
  }

  /** TrimLeft keeps a suffix of s, cuts off only whitespace, and what it keeps
      does not start with whitespace. */
  lemma {:induction false} TrimLeftMeaning(s: string)
    ensures |TrimLeft(s)| <= |s|
    ensures TrimLeft(s) == s[|s| - |TrimLeft(s)|..]
    ensures AllSpace(s[..|s| - |TrimLeft(s)|])
    ensures TrimLeft(s) == [] || !IsSpace(TrimLeft(s)[0])
  {
    if s != [] && IsSpace(s[0]) {
      TrimLeftMeaning(s[1..]);
      var r := TrimLeft(s);
      assert s[1..][|s[1..]| - |r|..] == s[|s| - |r|..];
      var cut, cut' := s[..|s| - |r|], s[1..][..|s[1..]| - |r|];
      forall j | 0 <= j < |cut| ensures IsSpace(cut[j]) {
        if j > 0 {
          assert cut[j] == cut'[j - 1];
        }
      }
    }
  }

  /** TrimRight keeps a prefix of s, cuts off only whitespace, and what it
      keeps does not end with whitespace. */
  lemma {:induction false} TrimRightMeaning(s: string)
    ensures |TrimRight(s)| <= |s|
    ensures TrimRight(s) == s[..|TrimRight(s)|]
    ensures AllSpace(s[|TrimRight(s)|..])
    ensures TrimRight(s) == [] || !IsSpace(TrimRight(s)[|TrimRight(s)| - 1])
  {
    if s != [] && IsSpace(s[|s| - 1]) {
      var s' := s[..|s| - 1];
      TrimRightMeaning(s');
      var r := TrimRight(s);
      assert s'[..|r|] == s[..|r|];
      forall j | 0 <= j < |s| - |r| ensures IsSpace(s[|r|..][j]) {
        if j < |s| - 1 - |r| {
          assert s[|r|..][j] == s'[|r|..][j];
        }
      }
    }
  }

  /** Strip keeps a middle part of s that neither starts nor ends with
      whitespace, and cuts off only whitespace on either side of it. */
  lemma StripParts(s: string) returns (pre: string, post: string)
    ensures s == pre + Strip(s) + post
    ensures AllSpace(pre) && AllSpace(post)
    ensures Strip(s) == [] || (!IsSpace(Strip(s)[0]) && !IsSpace(Strip(s)[|Strip(s)| - 1]))
  {
    var t := TrimLeft(s);
    TrimLeftMeaning(s);
    TrimRightMeaning(t);
    pre := s[..|s| - |t|];
    post := t[|TrimRight(t)|..];
    assert t == TrimRight(t) + post;
    assert s == pre + t;
  }

  /** Strip gives the empty string exactly for an all-whitespace text. */
  lemma StripEmpty(s: string)
    ensures Strip(s) == [] <==> AllSpace(s)
  {
    var pre, post := StripParts(s);
    var m := Strip(s);
    if m == [] {
      assert s == pre + post;
      forall j | 0 <= j < |s| ensures IsSpace(s[j]) {
        if j < |pre| {
          assert s[j] == pre[j];
        } else {
          assert s[j] == post[j - |pre|];
        }
      }
    } else {
      assert s[|pre|] == m[0];
    }
  }

  /** Strip removes exactly the surrounding whitespace: whatever padding of
      whitespace is put around a text that neither starts nor ends with
      whitespace, Strip gives the text back. */
  lemma {:induction false} StripPadded(pre: string, m: string, post: string)
    requires AllSpace(pre) && AllSpace(post)
    requires m == [] || (!IsSpace(m[0]) && !IsSpace(m[|m| - 1]))
    ensures Strip(pre + m + post) == m
  {
    assert pre + m + post == pre + (m + post);
    TrimLeftPadded(pre, m + post);
    if m == [] {
      assert m + post == post;
      assert TrimLeft(post) == [] by {
        TrimLeftPadded(post, []);
        assert post + [] == post;
      }
      TrimRightPadded([], []);
    } else {
      assert (m + post)[0] == m[0];
      assert TrimLeft(m + post) == m + post;
      TrimRightPadded(m, post);
    }
  }

  lemma {:induction false} TrimLeftPadded(pre: string, t: string)
    requires AllSpace(pre)
    requires t == [] || !IsSpace(t[0]) || AllSpace(t)
    ensures TrimLeft(pre + t) == TrimLeft(t)
  {
    if pre != [] {
      assert (pre + t)[1..] == pre[1..] + t;
      TrimLeftPadded(pre[1..], t);
    } else {
      assert pre + t == t;
    }
  }

  lemma {:induction false} TrimRightPadded(m: string, post: string)
    requires AllSpace(post)
    requires m == [] || !IsSpace(m[|m| - 1])
    ensures TrimRight(m + post) == m
  {
    if post != [] {
      assert (m + post)[..|m + post| - 1] == m + post[..|post| - 1];
      TrimRightPadded(m, post[..|post| - 1]);
    } else {
      assert m + post == m;
    }
  }

  /** Stripping twice is stripping once. */
  lemma StripIdempotent(s: string)
    ensures Strip(Strip(s)) == Strip(s)
  {
    var _, _ := StripParts(s);
    StripPadded([], Strip(s), []);
    assert [] + Strip(s) + [] == Strip(s);
  }

  /** Python's c * n for a one-character string c. */
  function Repeat(c: char, n: nat): (r: string)
    ensures |r| == n
    ensures forall i :: 0 <= i < n ==> r[i] == c
  {
    if n == 0 then "" else Repeat(c, n - 1) + [c]
  }

  /** The separator between fields on one report line. */
  const FieldSep: string := "\t\t"

  /** The fields of one report line, in order, separated by FieldSep (the
      f-strings of the source put "\t\t" between consecutive fields). */
  function JoinFields(fs: seq<string>): string
  {
    if |fs| == 0 then ""
    else if |fs| == 1 then fs[0]
    else fs[0] + FieldSep + JoinFields(fs[1..])
  }

  /** Cuts a line at every FieldSep, reading left to right. */
  function SplitFields(s: string): (r: seq<string>)
    ensures |r| >= 1
    decreases |s|
  {
    if |s| < 2 then [s]
    else if s[0] == '\t' && s[1] == '\t' then [""] + SplitFields(s[2..])
    else
      var rest := SplitFields(s[1..]);
      [[s[0]] + rest[0]] + rest[1..]
  }

  predicate TabFree(s: string) { '\t' !in s }

  lemma {:induction false} SplitFieldsPlain(f: string)
    requires TabFree(f)
    ensures SplitFields(f) == [f]
  {
    if |f| >= 2 {
      assert f[0] in f;
      assert forall c :: c in f[1..] ==> c in f;
      SplitFieldsPlain(f[1..]);
      assert [f[0]] + f[1..] == f;
    }
  }

  lemma {:induction false} SplitFieldsCons(f: string, t: string)
    requires TabFree(f)
    ensures SplitFields(f + FieldSep + t) == [f] + SplitFields(t)
  {
    if f == [] {
      assert f + FieldSep + t == "\t\t" + t;
      assert ("\t\t" + t)[2..] == t;
    } else {
      var s := f + FieldSep + t;
      assert f[0] in f;
      assert forall c :: c in f[1..] ==> c in f;
      assert s[1..] == f[1..] + FieldSep + t;
      SplitFieldsCons(f[1..], t);
      assert [f[0]] + f[1..] == f;
    }
  }

  /** Joining tab-free fields and splitting the line again gives the fields
      back: a report line determines its fields. */
  lemma {:induction false} SplitJoinFields(fs: seq<string>)
    requires |fs| >= 1
    requires forall i :: 0 <= i < |fs| ==> TabFree(fs[i])
    ensures SplitFields(JoinFields(fs)) == fs
  {
    if |fs| == 1 {
      SplitFieldsPlain(fs[0]);
    } else {
      SplitFieldsCons(fs[0], JoinFields(fs[1..]));
      SplitJoinFields(fs[1..]);
    }
  }

  /** Each string of ls followed by a newline. */
  function Lines(ls: seq<string>): string
  {
    if ls == [] then "" else ls[0] + "\n" + Lines(ls[1..])
  }

  lemma {:induction false} LinesAppend(a: seq<string>, b: seq<string>)
    ensures Lines(a + b) == Lines(a) + Lines(b)
  {
    if a == [] {
      assert a + b == b;
    } else {
      assert (a + b)[1..] == a[1..] + b;
      LinesAppend(a[1..], b);
    }
  }

  /** Cuts a text into its lines at every "\n"; a final line without a newline
      is kept. */
  function SplitLines(s: string): seq<string>
    decreases |s|
  {
    if s == [] then []
    else if s[0] == '\n' then [""] + SplitLines(s[1..])
    else
      var rest := SplitLines(s[1..]);
      if rest == [] then [s] else [[s[0]] + rest[0]] + rest[1..]
  }

  predicate LineFree(s: string) { '\n' !in s }

  lemma {:induction false} SplitLinesCons(l: string, t: string)
    requires LineFree(l)
    ensures SplitLines(l + "\n" + t) == [l] + SplitLines(t)
  {
    if l == [] {
      assert ("\n" + t)[1..] == t;
    } else {
      var s := l + "\n" + t;
      assert l[0] in l;
      assert forall c :: c in l[1..] ==> c in l;
      assert s[1..] == l[1..] + "\n" + t;
      SplitLinesCons(l[1..], t);
      assert [l[0]] + l[1..] == l;
    }
  }

  /** Splitting newline-terminated, newline-free lines gives the lines back:
      the text has exactly one line per element of ls, in order. */
  lemma {:induction false} SplitLinesOfLines(ls: seq<string>)
    requires forall i :: 0 <= i < |ls| ==> LineFree(ls[i])
    ensures SplitLines(Lines(ls)) == ls
  {
    if ls != [] {
      SplitLinesCons(ls[0], Lines(ls[1..]));
      SplitLinesOfLines(ls[1..]);
    }
  }
}
