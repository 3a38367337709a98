/** The few string operations the URL code relies on. */
module Text {
  import opened Wrappers

  function LowerChar(c: char): char {
    if 'A' <= c <= 'Z' then c - 'A' + 'a' else c
  }

  function Lower(s: string): (r: string)
    ensures |r| == |s|
  {
    seq(|s|, i requires 0 <= i < |s| => LowerChar(s[i]))
  }

  /** The position of the first `c` in `s`, or the length of `s`. */
  function First(s: string, c: char): (i: nat)
    ensures i <= |s| && c !in s[..i]
    ensures i < |s| ==> s[i] == c
  {
    if s == "" || s[0] == c then 0
    else
      var i := First(s[1..], c);
      assert s[..i + 1] == [s[0]] + s[1..][..i];
      i + 1
  }

  lemma FirstIs(a: string, c: char, b: string)
    requires c !in a && (b == "" || b[0] == c)
    ensures First(a + b, c) == |a|
  {
    assert (a + b)[..|a|] == a;
  }

  /** `strings.Cut`: what precedes the first `c` and what follows it. */
  function Cut(s: string, c: char): (string, string) {
    var i := First(s, c);
    (s[..i], if i < |s| then s[i + 1..] else "")
  }

  lemma CutOf(a: string, c: char, b: string)
    requires c !in a
    ensures Cut(a + [c] + b, c) == (a, b) && Cut(a, c) == (a, "")
  {
    FirstIs(a, c, [c] + b);
    FirstIs(a, c, "");
    assert a + [c] + b == a + ([c] + b) && a + "" == a;
  }

  /** The same where the separator is left out before an empty rest. */
  lemma CutSuffix(front: string, c: char, back: string)
    requires c !in front
    ensures Cut(front + (if back == "" then "" else [c] + back), c) == (front, back)
  {
    hide Cut;
    CutOf(front, c, back);
    assert front + "" == front && front + ([c] + back) == front + [c] + back;
  }

  /** The position of the last `c` in `s`. */
  function Last(s: string, c: char): (i: Option<nat>)
    ensures i.Some? ==> i.value < |s| && s[i.value] == c && c !in s[i.value + 1..]
    ensures i.None? ==> c !in s
  {
    if s == "" then None
    else if s[|s| - 1] == c then Some(|s| - 1)
    else
      var front := s[..|s| - 1];
      assert s == front + [s[|s| - 1]];
      match Last(front, c)
      case None => None
      case Some(i) =>
        assert s[i + 1..] == front[i + 1..] + [s[|s| - 1]];
        Some(i)
  }

  lemma LastIs(a: string, c: char, b: string)
    requires c !in b
    ensures Last(a + [c] + b, c) == Some(|a|)
  {
    var s := a + [c] + b;
    assert s[|a|] == c && s[|a| + 1..] == b;
  }

  function TrimSuffix(s: string, suffix: string): string {
    if HasSuffix(s, suffix) then s[..|s| - |suffix|] else s
  }

  predicate HasSuffix(s: string, suffix: string) {
    |suffix| <= |s| && s[|s| - |suffix|..] == suffix
  }

  predicate IsSpace(c: char) {
    c == ' ' || '\t' <= c <= '\r'
  }

  predicate NoSpace(s: string) {
    forall k :: 0 <= k < |s| ==> !IsSpace(s[k])
  }

  function TrimLeft(s: string): string {
    if s != "" && IsSpace(s[0]) then TrimLeft(s[1..]) else s
  }

  function TrimRight(s: string): string {
    if s != "" && IsSpace(s[|s| - 1]) then TrimRight(s[..|s| - 1]) else s
  }

  function TrimSpace(s: string): string {
    TrimRight(TrimLeft(s))
  }

  predicate AllSpace(s: string) {
    forall k :: 0 <= k < |s| ==> s[k] == ' ' || '\t' <= s[k] <= '\r'
  }

  /** Trimming takes away the white space at both ends and nothing else. */
  lemma TrimsExactly(left: string, s: string, right: string)
    requires AllSpace(left) && AllSpace(right)
    requires s == "" || (!AllSpace([s[0]]) && !AllSpace([s[|s| - 1]]))
    ensures TrimSpace(left + s + right) == s
  {
    TrimsLeft(left, s + right);
    assert left + (s + right) == left + s + right;
    if s == "" {
      TrimsLeft(right, "");
      assert right + "" == s + right;
    } else {
      assert (s + right)[0] == s[0] && IsSpace(s[0]) == AllSpace([s[0]]);
      TrimsRight(s, right);
    }
  }

  lemma {:induction false} TrimsLeft(left: string, s: string)
    requires AllSpace(left)
    ensures TrimLeft(left + s) == TrimLeft(s)
  {
    if left != "" {
      assert (left + s)[1..] == left[1..] + s;
      TrimsLeft(left[1..], s);
    } else {
      assert left + s == s;
    }
  }

  lemma {:induction false} TrimsRight(s: string, right: string)
    requires AllSpace(right) && s != "" && !AllSpace([s[|s| - 1]])
    ensures TrimRight(s + right) == s
  {
    if right != "" {
      var n := |right| - 1;
      assert (s + right)[..|s| + n] == s + right[..n] && (s + right)[|s| + n] == right[n];
      TrimsRight(s, right[..n]);
    } else {
      assert s + right == s && IsSpace(s[|s| - 1]) == AllSpace([s[|s| - 1]]);
    }
  }

  // ----- decimal numbers --------------------------------------------------------------------

  predicate AllDigits(s: string) {
    forall k :: 0 <= k < |s| ==> '0' <= s[k] <= '9'
  }

  function Itoa(n: nat): (s: string)
    ensures s != "" && AllDigits(s)
  {
    var last := ['0' + (n % 10) as char];
    if n < 10 then last else Itoa(n / 10) + last
  }

  function Atoi(s: string): nat
    requires AllDigits(s)
  {
    if s == "" then 0
    else Atoi(s[..|s| - 1]) * 10 + (s[|s| - 1] - '0') as nat
  }

  lemma {:induction false} AtoiInvertsItoa(n: nat)
    ensures Atoi(Itoa(n)) == n
  {
    var s := Itoa(n);
    assert s[|s| - 1] == '0' + (n % 10) as char;
    if n < 10 {
      assert s[..|s| - 1] == "";
    } else {
      AtoiInvertsItoa(n / 10);
      assert s[..|s| - 1] == Itoa(n / 10);
    }
  }

  // ----- splitting --------------------------------------------------------------------------

  /** `strings.Split` at a one-character separator. */
  function Split(s: string, c: char): (parts: seq<string>)
    ensures parts != []
  {
    var i := First(s, c);
    if i == |s| then [s] else [s[..i]] + Split(s[i + 1..], c)
  }

  lemma SplitOf(a: string, c: char, b: string)
    requires c !in a
    ensures Split(a + [c] + b, c) == [a] + Split(b, c) && Split(a, c) == [a]
  {
    FirstIs(a, c, [c] + b);
    FirstIs(a, c, "");
    assert a + [c] + b == a + ([c] + b) && a + "" == a;
    assert (a + [c] + b)[|a| + 1..] == b && (a + [c] + b)[..|a|] == a;
  }

  function Join(parts: seq<string>, c: char): string
    requires parts != []
  {
    if |parts| == 1 then parts[0] else parts[0] + [c] + Join(parts[1..], c)
  }

  lemma {:induction false} SplitInvertsJoin(parts: seq<string>, c: char)
    requires parts != [] && forall k :: 0 <= k < |parts| ==> c !in parts[k]
    ensures Split(Join(parts, c), c) == parts
  {
    hide Split;
    if |parts| == 1 {
      SplitOf(parts[0], c, "");
      assert parts == [parts[0]];
    } else {
      SplitInvertsJoin(parts[1..], c);
      SplitOf(parts[0], c, Join(parts[1..], c));
      assert parts == [parts[0]] + parts[1..];
    }
  }

  lemma {:induction false} JoinIsFreeOf(parts: seq<string>, c: char, d: char)
    requires parts != [] && c != d && forall k :: 0 <= k < |parts| ==> d !in parts[k]
    ensures d !in Join(parts, c)
  {
    if |parts| > 1 {
      JoinIsFreeOf(parts[1..], c, d);
    }
  }

  lemma {:induction false} SplitConcat(a: string, c: char, b: string)
    ensures Split(a + [c] + b, c) == Split(a, c) + Split(b, c)
    decreases |a|
  {
    hide Split, First;
    var i := First(a, c);
    if i == |a| {
      assert a[..i] == a;
      SplitOf(a, c, b);
    } else {
      var rest := a[i + 1..];
      assert a == a[..i] + [c] + rest;
      assert a + [c] + b == a[..i] + [c] + (rest + [c] + b);
      assert [a[..i]] + (Split(rest, c) + Split(b, c)) == [a[..i]] + Split(rest, c) + Split(b, c);
      SplitOf(a[..i], c, rest);
      SplitOf(a[..i], c, rest + [c] + b);
      SplitConcat(rest, c, b);
    }
  }

  lemma {:induction false} JoinInvertsSplit(s: string, c: char)
    ensures Join(Split(s, c), c) == s
  {
    var i := First(s, c);
    if i < |s| {
      JoinInvertsSplit(s[i + 1..], c);
      assert ([s[..i]] + Split(s[i + 1..], c))[1..] == Split(s[i + 1..], c);
      assert s == s[..i] + [c] + s[i + 1..];
    }
  }

  lemma {:induction false} JoinConcat(a: seq<string>, c: char, b: seq<string>)
    requires a != [] && b != []
    ensures Join(a + b, c) == Join(a, c) + [c] + Join(b, c)
  {
    if |a| == 1 {
      assert (a + b)[1..] == b;
    } else {
      JoinConcat(a[1..], c, b);
      assert (a + b)[1..] == a[1..] + b;
    }
  }

  /** A host is a domain or lies below it. */
  predicate AtOrBelow(host: string, domain: string) {
    host == domain || HasSuffix(host, "." + domain)
  }

  /** Comparing suffixes after a dot is comparing whole labels: a host is at or below a domain exactly when the labels of
      the domain are its last ones. */
  lemma AtOrBelowIsLabelwise(host: string, domain: string)
    ensures AtOrBelow(host, domain)
            <==> var (labels, last) := (Split(host, '.'), Split(domain, '.'));
                 |last| <= |labels| && labels[|labels| - |last|..] == last
  {
    hide Split, Join;
    var labels, last := Split(host, '.'), Split(domain, '.');
    if HasSuffix(host, "." + domain) {
      var front := host[..|host| - |domain| - 1];
      assert host == front + ("." + domain);
      assert host == front + ['.'] + domain;
      SplitConcat(front, '.', domain);
    }
    if |last| <= |labels| && labels[|labels| - |last|..] == last {
      JoinInvertsSplit(host, '.');
      JoinInvertsSplit(domain, '.');
      var front := labels[..|labels| - |last|];
      assert labels == front + last;
      if front != [] {
        JoinConcat(front, '.', last);
        EndsWith(Join(front, '.'), domain, host);
      } else {
        assert labels == last;
      }
    }
  }

  lemma EndsWith(front: string, domain: string, host: string)
    requires host == front + ['.'] + domain
    ensures HasSuffix(host, "." + domain)
  {
    assert host[|front|..] == "." + domain;
  }
}
