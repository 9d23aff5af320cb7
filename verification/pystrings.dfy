/**
 * The few Python string operations the back end relies on: `str.strip()` with
 * no argument, `sep.join(parts)` and `s.split(c)` for a one-character separator.
 */
module PyStrings {

  /** The characters Python's `str.isspace()` accepts, which `str.strip()` removes. */
  predicate IsSpace(c: char) {
    || ('\t' <= c <= '\r')                // \t \n \x0b \x0c \r
    || ('\U{1C}' <= c <= '\U{1F}')        // file, group, record and unit separators
    || c == ' '
    || c == '\U{85}' || c == '\U{A0}' || c == '\U{1680}'
    || ('\U{2000}' <= c <= '\U{200A}')
    || c == '\U{2028}' || c == '\U{2029}' || c == '\U{202F}' || c == '\U{205F}' || c == '\U{3000}'
  }

  /** `s.lstrip()`: what is left after dropping the leading white space. */
  function TrimLeft(s: string): (r: string)
    ensures |r| <= |s|
  {
    if s != [] && IsSpace(s[0]) then TrimLeft(s[1..]) else s
  }

  /** `s.lstrip()` keeps a suffix of `s`, drops only white space, and keeps no leading white space. */
  lemma {:induction false} TrimLeftSuffix(s: string)
    ensures TrimLeft(s) == s[|s| - |TrimLeft(s)|..]
    ensures forall i :: 0 <= i < |s| - |TrimLeft(s)| ==> IsSpace(s[i])
    ensures TrimLeft(s) != [] ==> !IsSpace(TrimLeft(s)[0])
  {
    if s != [] && IsSpace(s[0]) {
      TrimLeftSuffix(s[1..]);
      forall i | 1 <= i < |s| - |TrimLeft(s)| ensures IsSpace(s[i]) {
        assert s[i] == s[1..][i - 1];
      }
    }
  }

  /** `s.rstrip()`: what is left after dropping the trailing white space. */
  function TrimRight(s: string): (r: string)
    ensures |r| <= |s|
  {
    if s != [] && IsSpace(s[|s| - 1]) then TrimRight(s[..|s| - 1]) else s
  }

  /** `s.rstrip()` keeps a prefix of `s`, drops only white space, and keeps no trailing white space. */
  lemma {:induction false} TrimRightPrefix(s: string)
    ensures TrimRight(s) == s[..|TrimRight(s)|]
    ensures forall i :: |TrimRight(s)| <= i < |s| ==> IsSpace(s[i])
    ensures TrimRight(s) != [] ==> !IsSpace(TrimRight(s)[|TrimRight(s)| - 1])
  {
    if s != [] && IsSpace(s[|s| - 1]) {
      TrimRightPrefix(s[..|s| - 1]);
      forall i | |TrimRight(s)| <= i < |s| - 1 ensures IsSpace(s[i]) {
        assert s[i] == s[..|s| - 1][i];
      }
    }
  }

  /** `s.strip()`. */
  function Strip(s: string): (r: string)
    ensures |r| <= |s|
  {
    TrimRight(TrimLeft(s))
  }

  /** Where the kept part of `s.strip()` starts in `s`. */
  function StripStart(s: string): nat {
    |s| - |TrimLeft(s)|
  }

  /** Where the kept part of `s.strip()` ends in `s`. */
  function StripEnd(s: string): nat {
    StripStart(s) + |Strip(s)|
  }

  /**
   * What strip leaves: a contiguous slice of the input, with only white space
   * cut on either side and no white space at either end of what is kept.
   */
  lemma StripIsTrimmedSlice(s: string)
    ensures 0 <= StripStart(s) <= StripEnd(s) <= |s|
    ensures Strip(s) == s[StripStart(s)..StripEnd(s)]
    ensures forall i :: 0 <= i < StripStart(s) ==> IsSpace(s[i])
    ensures forall i :: StripEnd(s) <= i < |s| ==> IsSpace(s[i])
    ensures StripStart(s) < StripEnd(s) ==> !IsSpace(s[StripStart(s)]) && !IsSpace(s[StripEnd(s) - 1])
  {
    var l := TrimLeft(s);
    TrimLeftSuffix(s);
    TrimRightPrefix(l);
    var a, b := StripStart(s), StripEnd(s);
    assert l == s[a..];
    assert Strip(s) == l[..b - a];
    forall i | b <= i < |s| ensures IsSpace(s[i]) {
      assert s[i] == l[i - a];
    }
    if a < b {
      assert s[a] == l[0];
    }
  }

  /** Stripping an already stripped text changes nothing. */
  lemma StripIdempotent(s: string)
    ensures Strip(Strip(s)) == Strip(s)
  {
    var t := Strip(s);
    if t != [] {
      StripIsTrimmedSlice(s);
      assert !IsSpace(t[0]) && !IsSpace(t[|t| - 1]);
      assert TrimLeft(t) == t;
      assert TrimRight(t) == t;
    }
  }

  /** A text strips to the empty string exactly when it is made of white space only. */
  lemma StripEmptyIffAllSpace(s: string)
    ensures Strip(s) == [] <==> forall i :: 0 <= i < |s| ==> IsSpace(s[i])
  {
    var l := TrimLeft(s);
    TrimLeftSuffix(s);
    TrimRightPrefix(l);
    if forall i :: 0 <= i < |s| ==> IsSpace(s[i]) {
    } else {
      var i :| 0 <= i < |s| && !IsSpace(s[i]);
      assert i >= |s| - |l|;
      assert l != [];
      assert !IsSpace(l[0]);
      assert TrimRight(l) != [];
    }
  }

  /** `sep.join(xs)`: the parts in order with `sep` between neighbours. */
  function Join(xs: seq<string>, sep: string): (r: string)
    ensures |xs| >= 1 ==> |xs[|xs| - 1]| <= |r| && r[|r| - |xs[|xs| - 1]|..] == xs[|xs| - 1]
  {
    if |xs| == 0 then ""
    else if |xs| == 1 then xs[0]
    else Join(xs[..|xs| - 1], sep) + sep + xs[|xs| - 1]
  }

  /** Index of the last occurrence of `c` in `s`, or -1 when there is none. */
  function LastIndexOf(s: string, c: char): (i: int)
    ensures -1 <= i < |s|
    ensures i >= 0 ==> s[i] == c
    ensures forall j :: i < j < |s| ==> s[j] != c
  {
    if s == [] then -1
    else if s[|s| - 1] == c then |s| - 1
    else LastIndexOf(s[..|s| - 1], c)
  }

  /** `s.split(c)`: the pieces between occurrences of `c`; never empty. */
  function Split(s: string, c: char): (r: seq<string>)
    ensures |r| >= 1
    decreases |s|
  {
    var i := LastIndexOf(s, c);
    if i < 0 then [s] else Split(s[..i], c) + [s[i + 1..]]
  }

  /** An occurrence with none after it is the last one. */
  lemma LastIndexOfIs(s: string, c: char, k: nat)
    requires k < |s| && s[k] == c
    requires forall j :: k < j < |s| ==> s[j] != c
    ensures LastIndexOf(s, c) == k
  {
  }

  lemma NoneAfter(a: string, c: char, b: string)
    requires c !in b
    ensures forall j :: |a| < j < |a + [c] + b| ==> (a + [c] + b)[j] != c
  {
    forall j | |a| < j < |a + [c] + b| ensures (a + [c] + b)[j] != c {
      assert (a + [c] + b)[j] == b[j - |a| - 1];
    }
  }

  lemma LastIndexOfBefore(a: string, c: char, b: string)
    requires c !in b
    ensures LastIndexOf(a + [c] + b, c) == |a|
  {
    NoneAfter(a, c, b);
    assert (a + [c] + b)[|a|] == c;
    LastIndexOfIs(a + [c] + b, c, |a|);
  }

  /** Joining parts that do not contain the separator and splitting again gives the parts back. */
  lemma {:induction false} SplitJoin(xs: seq<string>, c: char)
    requires |xs| >= 1
    requires forall k :: 0 <= k < |xs| ==> c !in xs[k]
    ensures Split(Join(xs, [c]), c) == xs
  {
    if |xs| == 1 {
      assert LastIndexOf(xs[0], c) < 0;
    } else {
      var init, last := xs[..|xs| - 1], xs[|xs| - 1];
      assert Join(xs, [c]) == Join(init, [c]) + [c] + last;
      SplitLast(Join(init, [c]), c, last);
      SplitJoin(init, c);
      assert xs == init + [last];
    }
  }

  /** Splitting at a separator with none after it cuts off the text after it as the last piece. */
  lemma SplitLast(a: string, c: char, b: string)
    requires c !in b
    ensures Split(a + [c] + b, c) == Split(a, c) + [b]
  {
    var s := a + [c] + b;
    LastIndexOfBefore(a, c, b);
    assert s[..|a|] == a && s[|a| + 1..] == b;
  }

  /** Index of the first occurrence of `c` in `s`, or |s| when there is none. */
  function FirstIndexOf(s: string, c: char): (i: nat)
    ensures i <= |s|
    ensures i < |s| ==> s[i] == c
    ensures forall j :: 0 <= j < i ==> s[j] != c
  {
    if s == [] || s[0] == c then 0 else 1 + FirstIndexOf(s[1..], c)
  }

  /** An occurrence with none before it is the first one. */
  lemma FirstIndexOfIs(s: string, c: char, k: nat)
    requires k < |s| && s[k] == c
    requires forall j :: 0 <= j < k ==> s[j] != c
    ensures FirstIndexOf(s, c) == k
  {
  }

  lemma NoneBefore(a: string, c: char, b: string)
    requires c !in a
    ensures forall j :: 0 <= j < |a| ==> (a + [c] + b)[j] != c
  {
    forall j | 0 <= j < |a| ensures (a + [c] + b)[j] != c {
      assert (a + [c] + b)[j] == a[j];
    }
  }

  lemma FirstIndexOfAfter(a: string, c: char, b: string)
    requires c !in a
    ensures FirstIndexOf(a + [c] + b, c) == |a|
  {
    NoneBefore(a, c, b);
    assert (a + [c] + b)[|a|] == c;
    FirstIndexOfIs(a + [c] + b, c, |a|);
  }
}
