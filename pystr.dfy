/**
 * The Python `str` operations the gateway relies on, over Dafny strings
 * (sequences of Unicode scalar values, as Python's `str` is).
 */
module PyStr {

  /** `c.isspace()`; also the class `\s` matches in a `str` pattern. */
  predicate IsSpace(c: char)
  {
    ('\t' <= c <= '\r') || ('\U{1C}' <= c <= '\U{1F}') || c == ' ' || c == '\U{85}' ||
    c == '\U{A0}' || c == '\U{1680}' || ('\U{2000}' <= c <= '\U{200A}') ||
    c == '\U{2028}' || c == '\U{2029}' || c == '\U{202F}' || c == '\U{205F}' || c == '\U{3000}'
  }

  predicate IsAsciiUpper(c: char) { 'A' <= c <= 'Z' }

  predicate IsAsciiLower(c: char) { 'a' <= c <= 'z' }

  predicate IsAsciiDigit(c: char) { '0' <= c <= '9' }

  predicate IsAsciiLetter(c: char) { IsAsciiUpper(c) || IsAsciiLower(c) }

  /** `s.startswith(prefix)` */
  predicate StartsWith(s: string, prefix: string)
  {
    |prefix| <= |s| && s[..|prefix|] == prefix
  }

  /** `s.find(c)`: the first index holding `c`, or -1. */
  function Find(s: string, c: char): (r: int)
    ensures -1 <= r < |s|
    ensures r >= 0 ==> s[r] == c
    ensures forall k :: 0 <= k < |s| && (r < 0 || k < r) ==> s[k] != c
  {
    if s == [] then -1
    else if s[0] == c then 0
    else
      var r := Find(s[1..], c);
      if r < 0 then -1 else r + 1
  }

  /** `s.rfind(c)`: the last index holding `c`, or -1. */
  function RFind(s: string, c: char): (r: int)
    ensures -1 <= r < |s|
    ensures r >= 0 ==> s[r] == c
    ensures forall k :: r < k < |s| ==> s[k] != c
  {
    if s == [] then -1
    else if s[|s| - 1] == c then |s| - 1
    else RFind(s[..|s| - 1], c)
  }

  /** `s.count(c)` for a one-character needle. */
  function Count(s: string, c: char): nat
  {
    if s == [] then 0 else (if s[0] == c then 1 else 0) + Count(s[1..], c)
  }

  lemma {:induction false} CountAppend(a: string, b: string, c: char)
    ensures Count(a + b, c) == Count(a, c) + Count(b, c)
  {
    if a != [] {
      assert (a + b)[1..] == a[1..] + b;
      CountAppend(a[1..], b, c);
    } else {
      assert a + b == b;
    }
  }

  lemma {:induction false} CountAbsent(s: string, c: char)
    requires forall k :: 0 <= k < |s| ==> s[k] != c
    ensures Count(s, c) == 0
  {
    if s != [] {
      CountAbsent(s[1..], c);
    }
  }

  /** `s.split(sep)` with an explicit one-character separator: empty fields are kept. */
  function Split(s: string, sep: char): (r: seq<string>)
    ensures |r| >= 1
    ensures forall i :: 0 <= i < |r| ==> sep !in r[i]
  {
    if s == [] then [""]
    else
      var rest := Split(s[1..], sep);
      if s[0] == sep then [""] + rest else [[s[0]] + rest[0]] + rest[1..]
  }

  /** The inverse of `Split`: `sep.join(parts)`. */
  function Join(parts: seq<string>, sep: char): string
  {
    if |parts| == 0 then ""
    else if |parts| == 1 then parts[0]
    else parts[0] + [sep] + Join(parts[1..], sep)
  }

  /** Splitting then joining on the same separator gives the string back. */
  lemma {:induction false} JoinSplit(s: string, sep: char)
    ensures Join(Split(s, sep), sep) == s
  {
    if s != [] {
      var rest := Split(s[1..], sep);
      JoinSplit(s[1..], sep);
      if s[0] == sep {
        assert ([""] + rest)[1..] == rest;
        assert s == [s[0]] + s[1..];
      } else if |rest| == 1 {
        assert s == [s[0]] + s[1..];
      } else {
        var parts := [[s[0]] + rest[0]] + rest[1..];
        assert parts[1..] == rest[1..];
        assert Join(rest, sep) == rest[0] + [sep] + Join(rest[1..], sep);
        assert s == [s[0]] + s[1..];
      }
    }
  }

  /**
   * The first field of `s.split(sep)` runs up to the first separator; the
   * remaining fields are the split of what follows it.
   */
  lemma {:induction false} SplitFirstField(s: string, sep: char)
    ensures Find(s, sep) < 0 ==> Split(s, sep) == [s]
    ensures Find(s, sep) >= 0 ==>
              Split(s, sep)[0] == s[..Find(s, sep)] &&
              Split(s, sep)[1..] == Split(s[Find(s, sep) + 1..], sep)
  {
    if s != [] && s[0] != sep {
      var rest := Split(s[1..], sep);
      SplitFirstField(s[1..], sep);
      var k := Find(s[1..], sep);
      if k < 0 {
        assert [s[0]] + s[1..] == s;
      } else {
        assert [s[0]] + s[1..][..k] == s[..k + 1];
        assert s[1..][k + 1..] == s[k + 2..];
      }
    }
  }

  /** `s.lstrip()`: drops leading whitespace. */
  function LStrip(s: string): (r: string)
    ensures |r| <= |s| && r == s[|s| - |r|..]
    ensures forall i :: 0 <= i < |s| - |r| ==> IsSpace(s[i])
    ensures r != [] ==> !IsSpace(r[0])
  {
    if s != [] && IsSpace(s[0]) then LStrip(s[1..]) else s
  }

  /** `s.rstrip()`: drops trailing whitespace. */
  function RStrip(s: string): (r: string)
    ensures |r| <= |s| && r == s[..|r|]
    ensures forall i :: |r| <= i < |s| ==> IsSpace(s[i])
    ensures r != [] ==> !IsSpace(r[|r| - 1])
  {
    if s != [] && IsSpace(s[|s| - 1]) then RStrip(s[..|s| - 1]) else s
  }

  predicate AllSpace(s: string)
  {
    forall i :: 0 <= i < |s| ==> IsSpace(s[i])
  }

  /**
   * `s.strip()`: the middle of `s` between two runs of whitespace, starting
   * and ending with a non-space character.
   */
  function Strip(s: string): (r: string)
    ensures |r| <= |s|
    ensures r != [] ==> !IsSpace(r[0]) && !IsSpace(r[|r| - 1])
  {
    RStrip(LStrip(s))
  }

  /** `r` is `s[i..i + |r|]`, with only whitespace before and after it. */
  predicate MiddleAt(s: string, r: string, i: nat)
  {
    i + |r| <= |s| && r == s[i..i + |r|] && AllSpace(s[..i]) && AllSpace(s[i + |r|..])
  }

  lemma LStripDropsSpace(s: string)
    ensures AllSpace(s[..|s| - |LStrip(s)|])
  {
    var head := s[..|s| - |LStrip(s)|];
    forall j | 0 <= j < |head| ensures IsSpace(head[j]) {
      assert head[j] == s[j];
    }
  }

  lemma RStripDropsSpace(s: string)
    ensures AllSpace(s[|RStrip(s)|..])
  {
    var tail := s[|RStrip(s)|..];
    forall j | 0 <= j < |tail| ensures IsSpace(tail[j]) {
      assert tail[j] == s[|RStrip(s)| + j];
    }
  }

  /** `strip` keeps a middle part of `s` and drops only whitespace on either side. */
  lemma StripIsMiddle(s: string)
    ensures exists i :: MiddleAt(s, Strip(s), i)
  {
    var l := LStrip(s);
    var r := RStrip(l);
    var i := |s| - |l|;
    LStripDropsSpace(s);
    RStripDropsSpace(l);
    assert l == s[i..];
    assert r == s[i..i + |r|];
    assert s[i + |r|..] == l[|r|..];
    assert r == Strip(s);
    assert MiddleAt(s, Strip(s), i);
  }

  lemma {:induction false} LStripSkipsSpace(pre: string, s: string)
    requires AllSpace(pre)
    ensures LStrip(pre + s) == LStrip(s)
  {
    if pre != [] {
      assert (pre + s)[1..] == pre[1..] + s;
      LStripSkipsSpace(pre[1..], s);
    } else {
      assert pre + s == s;
    }
  }

  lemma {:induction false} RStripSkipsSpace(s: string, post: string)
    requires AllSpace(post)
    ensures RStrip(s + post) == RStrip(s)
  {
    if post != [] {
      var n := |post|;
      assert (s + post)[..|s| + n - 1] == s + post[..n - 1];
      RStripSkipsSpace(s, post[..n - 1]);
    } else {
      assert s + post == s;
    }
  }

  /** Once a non-space character is reached, what follows is kept by `lstrip`. */
  lemma {:induction false} LStripAppend(s: string, post: string)
    requires LStrip(s) != []
    ensures LStrip(s + post) == LStrip(s) + post
  {
    assert (s + post)[0] == s[0];
    if IsSpace(s[0]) {
      assert LStrip(s) == LStrip(s[1..]);
      assert (s + post)[1..] == s[1..] + post;
      LStripAppend(s[1..], post);
    } else {
      assert LStrip(s) == s;
    }
  }

  /** Whitespace around a string never changes what `strip` returns. */
  lemma StripIgnoresPadding(pre: string, s: string, post: string)
    requires AllSpace(pre) && AllSpace(post)
    ensures Strip(pre + s + post) == Strip(s)
  {
    assert pre + s + post == pre + (s + post);
    LStripSkipsSpace(pre, s + post);
    if LStrip(s) == [] {
      assert AllSpace(s);
      LStripSkipsSpace(s, post);
      LStripSkipsSpace(post, "");
      assert post + "" == post;
      LStripSkipsSpace(s, "");
      assert s + "" == s;
    } else {
      LStripAppend(s, post);
      RStripSkipsSpace(LStrip(s), post);
    }
  }

  /** `c.lower()` for ASCII letters; every other character is left as it is. */
  function LowerChar(c: char): char
  {
    if IsAsciiUpper(c) then (c as int + 32) as char else c
  }

  /** `s.lower()`: every upper-case ASCII letter becomes its lower-case partner. */
  function Lower(s: string): (r: string)
    ensures |r| == |s|
    ensures forall i :: 0 <= i < |s| ==> !IsAsciiUpper(r[i])
    ensures forall i :: 0 <= i < |s| ==>
              if IsAsciiUpper(s[i]) then r[i] as int == s[i] as int + 32 else r[i] == s[i]
  {
    seq(|s|, i requires 0 <= i < |s| => LowerChar(s[i]))
  }

  /** Lower-casing neither creates nor removes whitespace. */
  lemma LowerKeepsSpace(c: char)
    ensures IsSpace(LowerChar(c)) == IsSpace(c)
  {
  }

  /** Hence lower-casing commutes with `lstrip`. */
  lemma {:induction false} LowerLStrip(s: string)
    ensures Lower(LStrip(s)) == LStrip(Lower(s))
  {
    if s != [] {
      var l := Lower(s);
      assert l[0] == LowerChar(s[0]);
      assert l[1..] == Lower(s[1..]);
      LowerKeepsSpace(s[0]);
      if IsSpace(s[0]) {
        assert IsSpace(l[0]);
        LowerLStrip(s[1..]);
      } else {
        assert !IsSpace(l[0]);
      }
    }
  }

  lemma {:induction false} LowerRStrip(s: string)
    ensures Lower(RStrip(s)) == RStrip(Lower(s))
  {
    if s != [] {
      var n := |s|;
      assert Lower(s)[n - 1] == LowerChar(s[n - 1]);
      assert Lower(s)[..n - 1] == Lower(s[..n - 1]);
      LowerKeepsSpace(s[n - 1]);
      if IsSpace(s[n - 1]) {
        assert RStrip(s) == RStrip(s[..n - 1]);
        assert RStrip(Lower(s)) == RStrip(Lower(s)[..n - 1]);
        LowerRStrip(s[..n - 1]);
      } else {
        assert RStrip(s) == s;
        assert RStrip(Lower(s)) == Lower(s);
      }
    }
  }

  /** Lower-casing and stripping can be done in either order. */
  lemma LowerStrip(s: string)
    ensures Lower(Strip(s)) == Strip(Lower(s))
  {
    LowerLStrip(s);
    LowerRStrip(LStrip(s));
  }

  /**
   * `s.isnumeric()`, for the ASCII digits: the empty string, a sign and a
   * decimal point are not numeric.
   */
  predicate IsNumeric(s: string)
    ensures IsNumeric(s) ==> s != [] && '-' !in s && '+' !in s && '.' !in s
  {
    |s| > 0 && forall i :: 0 <= i < |s| ==> IsAsciiDigit(s[i])
  }
}
