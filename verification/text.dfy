/** The few Python string and path operations the modelled code relies on. */
module Text {
  import opened Wrappers

  /** `s.startswith(prefix)` */
  predicate StartsWith(s: string, prefix: string) {
    |prefix| <= |s| && s[..|prefix|] == prefix
  }

  /** `sub in s` for strings: substring containment. */
  predicate Contains(s: string, sub: string)
    decreases |s|
  {
    StartsWith(s, sub) || (|s| > 0 && Contains(s[1..], sub))
  }

  /** `s[:n]` for a non-negative `n` */
  function Take(s: string, n: nat): (r: string)
    ensures |r| == if n < |s| then n else |s|
    ensures StartsWith(s, r) && r == s[..|r|]
  {
    if n < |s| then s[..n] else s
  }

  /** Position of the first `c` in `s`, if any. */
  function IndexOf(s: string, c: char): (r: Option<nat>)
    ensures r.None? <==> c !in s
    ensures r.Some? ==> r.value < |s| && s[r.value] == c && c !in s[..r.value]
  {
    if |s| == 0 then None
    else if s[0] == c then Some(0)
    else match IndexOf(s[1..], c)
      case None => None
      case Some(i) => assert s[..i + 1] == [s[0]] + s[1..][..i]; Some(i + 1)
  }

  /** `s.split(sep, 1)`: the text before the first `sep` and, when `sep` occurs,
      the text after it. */
  datatype Split = Split(head: string, rest: Option<string>)

  function SplitFirst(s: string, sep: char): (r: Split)
    ensures sep !in r.head
    ensures r.rest.None? <==> sep !in s
    ensures r.rest.None? ==> r.head == s
    ensures r.rest.Some? ==> s == r.head + [sep] + r.rest.value
  {
    match IndexOf(s, sep)
    case None => Split(s, None)
    case Some(i) =>
      assert s == s[..i] + [sep] + s[i + 1..];
      Split(s[..i], Some(s[i + 1..]))
  }

  /** The characters Python 2's `unicode.strip()` removes (the API results
      are decoded JSON, so their strings are `unicode`): the characters of
      category Zs or of bidirectional type WS, B or S in the Unicode 5.2
      database Python 2.7 uses. */
  const Whitespace: set<char> := {
    '\t', '\n', '\U{000b}', '\U{000c}', '\r',
    '\U{001c}', '\U{001d}', '\U{001e}', '\U{001f}', ' ',
    '\U{0085}', '\U{00a0}', '\U{1680}', '\U{180e}',
    '\U{2000}', '\U{2001}', '\U{2002}', '\U{2003}', '\U{2004}', '\U{2005}',
    '\U{2006}', '\U{2007}', '\U{2008}', '\U{2009}', '\U{200a}',
    '\U{2028}', '\U{2029}', '\U{202f}', '\U{205f}', '\U{3000}'}

  /** The end of the run of `chars` that starts at `i`. */
  function RunEnd(s: string, chars: set<char>, i: nat): (n: nat)
    requires i <= |s|
    ensures i <= n <= |s|
    ensures forall j :: i <= j < n ==> s[j] in chars
    ensures n < |s| ==> s[n] !in chars
    decreases |s| - i
  {
    if i < |s| && s[i] in chars then RunEnd(s, chars, i + 1) else i
  }

  /** The start of the run of `chars` that ends at `j`. */
  function RunStart(s: string, chars: set<char>, j: nat): (n: nat)
    requires j <= |s|
    ensures n <= j
    ensures forall i :: n <= i < j ==> s[i] in chars
    ensures n > 0 ==> s[n - 1] !in chars
    decreases j
  {
    if j > 0 && s[j - 1] in chars then RunStart(s, chars, j - 1) else j
  }

  /** `s.lstrip(chars)` */
  function LStrip(s: string, chars: set<char>): (r: string)
    ensures |r| <= |s| && r == s[|s| - |r|..]
    ensures forall i :: 0 <= i < |s| - |r| ==> s[i] in chars
    ensures |r| > 0 ==> r[0] !in chars
  {
    s[RunEnd(s, chars, 0)..]
  }

  /** `s.rstrip(chars)` */
  function RStrip(s: string, chars: set<char>): (r: string)
    ensures |r| <= |s| && r == s[..|r|]
    ensures forall i :: |r| <= i < |s| ==> s[i] in chars
    ensures |r| > 0 ==> r[|r| - 1] !in chars
  {
    s[..RunStart(s, chars, |s|)]
  }

  /** `s.strip(chars)`: the infix of `s` left once every leading and trailing
      character in `chars` is removed. */
  function Strip(s: string, chars: set<char>): (r: string)
    ensures |r| <= |s|
    ensures forall c :: c in r ==> c in s
    ensures StripsAt(s, chars, |s| - |LStrip(s, chars)|, r)
    ensures (forall i :: 0 <= i < |s| ==> s[i] !in chars) ==> r == s
  {
    var k := RunEnd(s, chars, 0);
    var e := RunStart(s, chars, |s|);
    var r := if e <= k then [] else s[k..e];
    assert |s| - |LStrip(s, chars)| == k;
    assert StripsAt(s, chars, k, r);
    InfixChars(s, k, r);
    r
  }

  lemma {:induction false} InfixChars(s: string, k: nat, r: string)
    requires k + |r| <= |s| && r == s[k..k + |r|]
    ensures forall c :: c in r ==> c in s
  {
    forall c | c in r ensures c in s {
      var j :| 0 <= j < |r| && r[j] == c;
      assert s[k + j] == c;
    }
  }

  /** `r` is the part of `s` from position `k` on, once a run of `chars`
      has been removed from each end, and neither end of `r` is in `chars`. */
  predicate StripsAt(s: string, chars: set<char>, k: int, r: string) {
    && 0 <= k <= k + |r| <= |s|
    && r == s[k..k + |r|]
    && (forall i :: 0 <= i < k ==> s[i] in chars)
    && (forall i :: k + |r| <= i < |s| ==> s[i] in chars)
    && (|r| > 0 ==> r[0] !in chars && r[|r| - 1] !in chars)
  }

  /** `s.endswith(suffix)` */
  predicate EndsWith(s: string, suffix: string) {
    |suffix| <= |s| && s[|s| - |suffix|..] == suffix
  }

  /** `posixpath.join(a, b)`: an absolute `b` discards `a`. */
  function PathJoin(a: string, b: string): (r: string)
    ensures StartsWith(b, "/") ==> r == b
    ensures !StartsWith(b, "/") ==> StartsWith(r, a) && EndsWith(r, b)
  {
    if StartsWith(b, "/") then b
    else if a == [] || a[|a| - 1] == '/' then a + b
    else a + "/" + b
  }
}
