/**
 * The parts of Go's `strings` package that the middlewares rely on, over
 * byte strings: every `char` of a `string` here stands for one byte, so
 * `|s|` is Go's `len(s)`.
 */
module GoStrings {

  /** `strings.HasSuffix`. */
  predicate HasSuffix(s: string, suffix: string)
  {
    |suffix| <= |s| && s[|s| - |suffix|..] == suffix
  }

  /** A suffix test is the same as "s is some prefix followed by suffix". */
  lemma HasSuffixIff(s: string, suffix: string)
    ensures HasSuffix(s, suffix) <==> exists prefix :: s == prefix + suffix
  {
    if HasSuffix(s, suffix) {
      var prefix := s[..|s| - |suffix|];
      assert s == prefix + suffix;
    }
    if exists prefix :: s == prefix + suffix {
      var prefix :| s == prefix + suffix;
      assert s[|s| - |suffix|..] == suffix;
    }
  }

  /** The bytes `unicode.IsSpace` accepts on their own: '\t', '\n', '\v', '\f', '\r' and ' '. */
  predicate IsSpace(c: char)
  {
    c == ' ' || 9 <= c as int <= 13
  }

  predicate AllSpace(s: string)
  {
    forall i :: 0 <= i < |s| ==> IsSpace(s[i])
  }

  function TrimLeft(s: string): (t: string)
    ensures |t| <= |s| && t == s[|s| - |t|..]
    ensures t == "" || !IsSpace(t[0])
    ensures AllSpace(s[..|s| - |t|])
  {
    if |s| > 0 && IsSpace(s[0]) then
      var t := TrimLeft(s[1..]);
      assert s[1..][..|s| - 1 - |t|] == s[1..|s| - |t|];
      t
    else s
  }

  function TrimRight(s: string): (t: string)
    ensures |t| <= |s| && t == s[..|t|]
    ensures t == "" || !IsSpace(t[|t| - 1])
    ensures AllSpace(s[|t|..])
  {
    if |s| > 0 && IsSpace(s[|s| - 1]) then
      var t := TrimRight(s[..|s| - 1]);
      assert s[|t|..] == s[..|s| - 1][|t|..] + [s[|s| - 1]];
      t
    else s
  }

  /** `strings.TrimSpace`: drops leading and trailing white space. */
  function TrimSpace(s: string): (t: string)
  {
    TrimRight(TrimLeft(s))
  }

  /** Where the trimmed string sits in `s`: all white space before and after it. */
  lemma TrimBounds(s: string) returns (i: nat, j: nat)
    ensures i <= j <= |s| && TrimSpace(s) == s[i..j]
    ensures AllSpace(s[..i]) && AllSpace(s[j..])
  {
    var l := TrimLeft(s);
    var t := TrimRight(l);
    i := |s| - |l|;
    j := i + |t|;
    assert AllSpace(s[..i]);
    assert l[|t|..] == s[j..] by {
      assert l == s[i..];
    }
    assert t == s[i..j] by {
      assert l == s[i..];
      assert t == l[..|t|];
    }
  }

  /** TrimSpace removes only white space, from both ends, and leaves no white space at either end. */
  lemma TrimSpaceShape(s: string)
    ensures exists i, j :: 0 <= i <= j <= |s| && TrimSpace(s) == s[i..j]
              && AllSpace(s[..i]) && AllSpace(s[j..])
    ensures TrimSpace(s) == "" || (!IsSpace(TrimSpace(s)[0]) && !IsSpace(TrimSpace(s)[|TrimSpace(s)| - 1]))
  {
    var i, j := TrimBounds(s);
    var l := TrimLeft(s);
    var t := TrimRight(l);
    if t != "" {
      assert t[0] == l[0];
    }
  }

  /** A string trims to nothing exactly when it is all white space. */
  lemma TrimSpaceEmptyIff(s: string)
    ensures TrimSpace(s) == "" <==> AllSpace(s)
  {
    var l := TrimLeft(s);
    assert TrimSpace(s) == "" ==> AllSpace(l[0..]);
    assert TrimSpace(s) == "" ==> l == "";
  }

  /** A string without white space at its ends is left as it is. */
  lemma TrimSpaceKeeps(s: string)
    requires s == "" || (!IsSpace(s[0]) && !IsSpace(s[|s| - 1]))
    ensures TrimSpace(s) == s
  {
  }

  /** The position of the first `c` in `s`. */
  function IndexOf(s: string, c: char): (i: nat)
    requires c in s
    ensures i < |s| && s[i] == c && c !in s[..i]
    ensures forall k :: 0 <= k < i ==> s[k] != c
  {
    if s[0] == c then 0
    else
      var i := 1 + IndexOf(s[1..], c);
      assert s[..i] == [s[0]] + s[1..][..i - 1];
      i
  }

  /** `strings.Split(s, string(sep))`: the pieces between the occurrences of `sep`. */
  function Split(s: string, sep: char): (parts: seq<string>)
    ensures |parts| >= 1
    decreases |s|
  {
    if sep !in s then [s]
    else
      var i := IndexOf(s, sep);
      [s[..i]] + Split(s[i + 1..], sep)
  }

  /** Splitting after a piece free of `sep` yields that piece first. */
  lemma SplitCons(a: string, sep: char, b: string)
    requires sep !in a
    ensures Split(a + [sep] + b, sep) == [a] + Split(b, sep)
  {
    var s := a + [sep] + b;
    assert s[|a|] == sep;
    var i := IndexOf(s, sep);
    assert s[..i] == a;
    assert s[i + 1..] == b;
  }

  /** Two pieces free of `sep`, joined by one `sep`, split back into the same two pieces. */
  lemma SplitJoinTwo(a: string, sep: char, b: string)
    requires sep !in a && sep !in b
    ensures Split(a + [sep] + b, sep) == [a, b]
  {
    SplitCons(a, sep, b);
  }

  /** A split into exactly two pieces means exactly one `sep`, between those pieces. */
  lemma SplitTwo(s: string, sep: char)
    requires |Split(s, sep)| == 2
    ensures var parts := Split(s, sep);
            s == parts[0] + [sep] + parts[1] && sep !in parts[0] && sep !in parts[1]
  {
    var i := IndexOf(s, sep);
    var rest := s[i + 1..];
    assert Split(s, sep) == [s[..i]] + Split(rest, sep);
    assert sep !in rest;
    assert s == s[..i] + [sep] + rest;
  }

  /** ASCII lower case of one byte. */
  function LowerByte(c: char): char
  {
    if 'A' <= c <= 'Z' then (c as int + 32) as char else c
  }

  /** `strings.ToLower` on ASCII bytes. */
  function ToLower(s: string): (t: string)
    ensures |t| == |s|
    ensures forall i :: 0 <= i < |s| && 'A' <= s[i] <= 'Z' ==> t[i] as int == s[i] as int + 32
    ensures forall i :: 0 <= i < |s| && !('A' <= s[i] <= 'Z') ==> t[i] == s[i]
    ensures forall i :: 0 <= i < |t| ==> !('A' <= t[i] <= 'Z')
  {
    seq(|s|, i requires 0 <= i < |s| => LowerByte(s[i]))
  }

  /** `strings.Repeat(string(c), n)`. */
  function Repeat(c: char, n: nat): (s: string)
    ensures |s| == n && forall i :: 0 <= i < n ==> s[i] == c
  {
    seq(n, _ => c)
  }
}
