/** String operations of the Go and JavaScript standard libraries that the modelled code
    calls, on `string` as a sequence of Unicode scalar values, and the laws the other
    modules need of them. */
module Text {

  datatype Option<+T> = None | Some(value: T)

  function Map<T, U>(f: T -> U, s: seq<T>): (r: seq<U>)
    ensures |r| == |s|
    ensures forall i :: 0 <= i < |s| ==> r[i] == f(s[i])
  {
    seq(|s|, i requires 0 <= i < |s| => f(s[i]))
  }

  lemma MapConcat<T, U>(f: T -> U, a: seq<T>, b: seq<T>)
    ensures Map(f, a + b) == Map(f, a) + Map(f, b)
  {
  }

  /** White space as Go's `unicode.IsSpace` tests it. */
  predicate IsSpace(c: char) {
    || '\t' <= c <= '\r' || c == ' ' || c == '\U{85}' || c == '\U{A0}' || c == '\U{1680}'
    || '\U{2000}' <= c <= '\U{200A}' || c == '\U{2028}' || c == '\U{2029}'
    || c == '\U{202F}' || c == '\U{205F}' || c == '\U{3000}'
  }

  /** Go's lower-case mapping, exact wherever its result is an ASCII character: beside A to Z only
      the dotted capital I and the Kelvin sign map to one. */
  function Lower(c: char): (r: char)
    ensures !('A' <= r <= 'Z')
  {
    if 'A' <= c <= 'Z' then (c as int + 32) as char
    else if c == '\U{130}' then 'i'
    else if c == '\U{212A}' then 'k'
    else c
  }

  function TrimLeft(s: string, cut: char -> bool): (r: string)
    ensures |r| <= |s|
    ensures r != "" ==> !cut(r[0])
  {
    if s != "" && cut(s[0]) then TrimLeft(s[1..], cut) else s
  }

  function TrimRight(s: string, cut: char -> bool): (r: string)
    ensures |r| <= |s|
    ensures r != "" ==> !cut(r[|r| - 1])
  {
    if s != "" && cut(s[|s| - 1]) then TrimRight(s[..|s| - 1], cut) else s
  }

  /** Trimming on the left leaves a suffix, and on the right a prefix. */
  lemma {:induction false} TrimLeftDrops(s: string, cut: char -> bool)
    ensures TrimLeft(s, cut) == s[|s| - |TrimLeft(s, cut)|..]
  {
    if s != "" && cut(s[0]) {
      TrimLeftDrops(s[1..], cut);
    }
  }

  lemma {:induction false} TrimRightTakes(s: string, cut: char -> bool)
    ensures TrimRight(s, cut) == s[..|TrimRight(s, cut)|]
  {
    if s != "" && cut(s[|s| - 1]) {
      TrimRightTakes(s[..|s| - 1], cut);
    }
  }

  function Trim(s: string, cut: char -> bool): (r: string)
    ensures r != "" ==> !cut(r[0]) && !cut(r[|r| - 1])
  {
    TrimRightTakes(TrimLeft(s, cut), cut);
    TrimRight(TrimLeft(s, cut), cut)
  }

  function TrimSpace(s: string): (r: string) {
    Trim(s, IsSpace)
  }

  /** Neither end of `s` is in the cut set: exactly the strings `Trim` leaves alone. */
  predicate Trimmed(s: string, cut: char -> bool) {
    s != "" ==> !cut(s[0]) && !cut(s[|s| - 1])
  }

  lemma TrimTrimmed(s: string, cut: char -> bool)
    requires Trimmed(s, cut)
    ensures Trim(s, cut) == s
  {
  }

  /** Cutting `s` off a string that starts with cut characters only. */
  lemma {:induction false} TrimLeftOfPadding(pad: string, s: string, cut: char -> bool)
    requires forall c :: c in pad ==> cut(c)
    requires s != "" && !cut(s[0])
    ensures TrimLeft(pad + s, cut) == s
  {
    if pad == "" {
      assert pad + s == s;
    } else {
      assert (pad + s)[1..] == pad[1..] + s;
      TrimLeftOfPadding(pad[1..], s, cut);
    }
  }

  /** First position of `c` in `s`, or -1. */
  function IndexOf(s: string, c: char): (r: int)
    ensures -1 <= r < |s|
    ensures r == -1 <==> c !in s
    ensures 0 <= r ==> s[r] == c && c !in s[..r]
  {
    if s == "" then -1
    else if s[0] == c then 0
    else
      var r := IndexOf(s[1..], c);
      assert s == [s[0]] + s[1..];
      if r < 0 then -1 else assert s[..r + 1] == [s[0]] + s[1..][..r]; r + 1
  }

  lemma {:induction false} IndexOfFirst(a: string, c: char, b: string)
    requires c !in a
    ensures IndexOf(a + [c] + b, c) == |a|
  {
    if a != "" {
      assert (a + [c] + b)[1..] == a[1..] + [c] + b;
      IndexOfFirst(a[1..], c, b);
    }
  }

  predicate HasPrefix(s: string, p: string) {
    |p| <= |s| && forall k :: 0 <= k < |p| ==> s[k] == p[k]
  }

  predicate HasSuffix(s: string, p: string) {
    |p| <= |s| && s[|s| - |p|..] == p
  }

  /** First position at which `p` occurs in `s`, or -1. */
  function IndexOfSub(s: string, p: string): (r: int)
    ensures -1 <= r && (0 <= r ==> r + |p| <= |s| && p <= s[r..])
    ensures r == -1 ==> forall k :: 0 <= k <= |s| ==> !(p <= s[k..])
    ensures forall k :: 0 <= k < r ==> !(p <= s[k..])
  {
    if p <= s then 0
    else if s == "" then -1
    else
      var r := IndexOfSub(s[1..], p);
      assert forall k :: 1 <= k <= |s| ==> s[k..] == s[1..][k - 1..];
      if r < 0 then -1 else r + 1
  }

  predicate Contains(s: string, p: string) {
    IndexOfSub(s, p) >= 0
  }

  /** `strings.Split(s, sep)` for a one-character separator. */
  function Split(s: string, sep: char): (r: seq<string>)
    ensures |r| > 0
    ensures forall p :: p in r ==> sep !in p
  {
    if s == "" then [""]
    else
      var r := Split(s[1..], sep);
      if s[0] == sep then [""] + r else [[s[0]] + r[0]] + r[1..]
  }

  /** `strings.Join(parts, sep)` for a one-character separator. */
  function Join(parts: seq<string>, sep: char): string {
    if |parts| == 0 then ""
    else if |parts| == 1 then parts[0]
    else parts[0] + [sep] + Join(parts[1..], sep)
  }

  lemma {:induction false} SplitPart(a: string, sep: char)
    requires sep !in a
    ensures Split(a, sep) == [a]
  {
    if a != "" {
      SplitPart(a[1..], sep);
      assert [a[0]] + a[1..] == a;
    }
  }

  lemma {:induction false} SplitFirst(a: string, rest: string, sep: char)
    requires sep !in a
    ensures Split(a + [sep] + rest, sep) == [a] + Split(rest, sep)
  {
    var s := a + [sep] + rest;
    if a == "" {
      assert s[1..] == rest;
    } else {
      assert s[1..] == a[1..] + [sep] + rest;
      SplitFirst(a[1..], rest, sep);
      assert [a[0]] + a[1..] == a;
    }
  }

  /** Splitting undoes joining, for parts that do not hold the separator. */
  lemma {:induction false} SplitJoin(parts: seq<string>, sep: char)
    requires parts != []
    requires forall p :: p in parts ==> sep !in p
    ensures Split(Join(parts, sep), sep) == parts
  {
    if |parts| == 1 {
      SplitPart(parts[0], sep);
    } else {
      SplitJoin(parts[1..], sep);
      SplitFirst(parts[0], Join(parts[1..], sep), sep);
    }
  }

  /** Joining undoes splitting. */
  lemma {:induction false} JoinSplit(s: string, sep: char)
    ensures Join(Split(s, sep), sep) == s
  {
    if s != "" {
      JoinSplit(s[1..], sep);
      var r := Split(s[1..], sep);
      if s[0] == sep {
        assert ([""] + r)[1..] == r;
      } else if |r| > 1 {
        assert ([[s[0]] + r[0]] + r[1..])[1..] == r[1..];
      }
    }
  }

  lemma {:induction false} SplitConcat(a: string, b: string, sep: char)
    ensures Split(a + [sep] + b, sep) == Split(a, sep) + Split(b, sep)
  {
    if a == "" {
      assert ("" + [sep] + b)[1..] == b;
    } else {
      assert (a + [sep] + b)[1..] == a[1..] + [sep] + b;
      SplitConcat(a[1..], b, sep);
    }
  }

  lemma {:induction false} TrimRightOfPadding(s: string, pad: string, cut: char -> bool)
    requires forall c :: c in pad ==> cut(c)
    requires s != "" && !cut(s[|s| - 1])
    ensures TrimRight(s + pad, cut) == s
  {
    if pad == "" {
      assert s + pad == s;
    } else {
      var n := |pad| - 1;
      assert pad[n] in pad && (s + pad)[..|s| + n] == s + pad[..n];
      TrimRightOfPadding(s, pad[..n], cut);
    }
  }

  /** Trimming undoes padding. */
  lemma TrimOfPadding(pre: string, s: string, post: string, cut: char -> bool)
    requires (forall c :: c in pre ==> cut(c)) && forall c :: c in post ==> cut(c)
    requires s != "" && Trimmed(s, cut)
    ensures Trim(pre + s + post, cut) == s
  {
    assert pre + s + post == pre + (s + post) && (s + post)[0] == s[0];
    TrimLeftOfPadding(pre, s + post, cut);
    TrimRightOfPadding(s, post, cut);
  }

  /** Trimming keeps no character that was not there. */
  lemma TrimKeeps(s: string, cut: char -> bool)
    ensures forall c :: c in Trim(s, cut) ==> c in s
  {
    TrimLeftDrops(s, cut);
    TrimRightTakes(TrimLeft(s, cut), cut);
  }

  lemma {:induction false} TrimOfNothing(s: string, cut: char -> bool)
    requires forall c :: c in s ==> cut(c)
    ensures Trim(s, cut) == ""
  {
    if s != "" {
      assert s[0] in s && TrimLeft(s, cut) == TrimLeft(s[1..], cut);
      TrimOfNothing(s[1..], cut);
    }
  }

  /** A string contains another exactly when it can be cut around it. */
  lemma ContainsExactly(s: string, p: string)
    ensures Contains(s, p) <==> exists a, b :: s == a + p + b
  {
    hide IndexOfSub;
    if Contains(s, p) {
      var k := IndexOfSub(s, p);
      assert s == s[..k] + p + s[k + |p|..];
    }
    if a, b :| s == a + p + b {
      assert s[|a|..] == p + b && p <= s[|a|..];
    }
  }
}
