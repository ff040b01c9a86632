/** The string helpers the retention cycle applies to file names: the extension and the
    stem of a name (the .NET `Path.GetExtension` and `Path.GetFileNameWithoutExtension`),
    invariant lower-casing, and the decimal and zero-padded rendering of numbers.
    Names here are entries of one directory, so they contain no directory separator. */
module Paths {

  /** The character of decimal digit `d`. */
  function Digit(d: nat): (c: char)
    requires d < 10
    ensures '0' <= c <= '9'
  {
    ('0' as int + d) as char
  }

  /** `n` in decimal, without leading zeros, as string interpolation prints an `int`. */
  function NatToString(n: nat): (s: string)
    ensures 1 <= |s|
    decreases n
  {
    if n < 10 then [Digit(n)] else NatToString(n / 10) + [Digit(n % 10)]
  }

  /** The text of a number is made of digits only. */
  lemma {:induction false} NatToStringDigits(n: nat)
    ensures forall i :: 0 <= i < |NatToString(n)| ==> '0' <= NatToString(n)[i] <= '9'
    decreases n
  {
    if n >= 10 {
      NatToStringDigits(n / 10);
    }
  }

  function Pow10(w: nat): (p: nat)
    ensures 1 <= p
  {
    if w == 0 then 1 else 10 * Pow10(w - 1)
  }

  /** The last `w` decimal digits of `n`, padded on the left with zeros (format "0000"). */
  function ZeroPad(n: nat, w: nat): (s: string)
    ensures |s| == w
    ensures forall i :: 0 <= i < |s| ==> '0' <= s[i] <= '9'
  {
    if w == 0 then "" else ZeroPad(n / 10, w - 1) + [Digit(n % 10)]
  }

  /** Padding to `w` digits loses nothing for a number below 10^w: distinct numbers give
      distinct texts. */
  lemma {:induction false} ZeroPadInjective(a: nat, b: nat, w: nat)
    requires a < Pow10(w) && b < Pow10(w)
    requires ZeroPad(a, w) == ZeroPad(b, w)
    ensures a == b
  {
    if w > 0 {
      var pa, pb := ZeroPad(a / 10, w - 1), ZeroPad(b / 10, w - 1);
      assert ZeroPad(a, w) == pa + [Digit(a % 10)];
      assert ZeroPad(b, w) == pb + [Digit(b % 10)];
      assert Digit(a % 10) == ZeroPad(a, w)[w - 1] == Digit(b % 10);
      assert a % 10 == b % 10;
      assert pa == ZeroPad(a, w)[..w - 1] == pb;
      assert a / 10 < Pow10(w - 1);
      assert b / 10 < Pow10(w - 1);
      ZeroPadInjective(a / 10, b / 10, w - 1);
    }
  }

  /** Invariant lower-casing of one character, restricted to the ASCII letters. */
  function LowerChar(c: char): (r: char)
  {
    if 'A' <= c <= 'Z' then (c as int - 'A' as int + 'a' as int) as char else c
  }

  /** `ToLowerInvariant` on the ASCII letters of `s`; every other character is kept. */
  function ToLowerAscii(s: string): (r: string)
    ensures |r| == |s|
    ensures forall i :: 0 <= i < |s| ==> r[i] == LowerChar(s[i])
  {
    seq(|s|, i requires 0 <= i < |s| => LowerChar(s[i]))
  }

  /** The index of the last occurrence of `c` in `s`, or -1 when `c` does not occur. */
  function LastIndexOf(s: string, c: char): (i: int)
    ensures -1 <= i < |s|
    decreases |s|
  {
    if s == [] then -1
    else if s[|s| - 1] == c then |s| - 1
    else LastIndexOf(s[..|s| - 1], c)
  }

  /** `LastIndexOf` returns an occurrence of `c`, and no `c` follows it. */
  lemma {:induction false} LastIndexOfIsLast(s: string, c: char)
    ensures 0 <= LastIndexOf(s, c) ==> s[LastIndexOf(s, c)] == c
    ensures forall j :: LastIndexOf(s, c) < j < |s| ==> s[j] != c
    decreases |s|
  {
    if s != [] && s[|s| - 1] != c {
      LastIndexOfIsLast(s[..|s| - 1], c);
    }
  }

  /** `Path.GetExtension`: from the last '.' to the end, the '.' included; empty when the
      name has no '.' or ends with it. */
  function Extension(name: string): (r: string)
  {
    var i := LastIndexOf(name, '.');
    if i < 0 || i == |name| - 1 then "" else name[i..]
  }

  /** A non-empty extension is a '.' and at least one further character, none of them a
      '.', at the end of the name, and the stem begins the name; a name without '.' has no
      extension and is its own stem. */
  lemma ExtensionShape(name: string)
    ensures var e := Extension(name);
      && e == name[|name| - |e|..]
      && (e != "" ==> 2 <= |e| && e[0] == '.' && forall j :: 1 <= j < |e| ==> e[j] != '.')
      && ('.' !in name ==> e == "" && Stem(name) == name)
      && Stem(name) == name[..|Stem(name)|]
  {
    LastIndexOfIsLast(name, '.');
  }

  /** `Path.GetFileNameWithoutExtension`: everything before the last '.', or the whole name
      when it has none. */
  function Stem(name: string): (r: string)
  {
    var i := LastIndexOf(name, '.');
    if i < 0 then name else name[..i]
  }

  /** Characters appended after the last `c` do not move it. */
  lemma {:induction false} LastIndexOfSkips(s: string, t: string, c: char)
    requires c !in t
    ensures LastIndexOf(s + t, c) == LastIndexOf(s, c)
    decreases |t|
  {
    if t == [] {
      assert s + t == s;
    } else {
      var u := s + t;
      assert u[..|u| - 1] == s + t[..|t| - 1];
      assert u[|u| - 1] == t[|t| - 1];
      LastIndexOfSkips(s, t[..|t| - 1], c);
    }
  }

  lemma DropPrefix(a: string, b: string)
    ensures (a + b)[..|a|] == a && (a + b)[|a|..] == b
  {
  }

  /** The last '.' of `stem.ext` is the one before `ext` when `ext` holds none. */
  lemma LastDotBeforeExtension(stem: string, ext: string)
    requires '.' !in ext
    ensures LastIndexOf(stem + "." + ext, '.') == |stem|
  {
    var p := stem + ".";
    assert LastIndexOf(p, '.') == |stem| by {
      assert p[|p| - 1] == '.';
    }
    LastIndexOfSkips(p, ext, '.');
  }

  /** Stem and extension of a name whose last '.' is at `i`, not at its end. */
  lemma PartsAtDot(name: string, i: int)
    requires 0 <= i < |name| - 1 && LastIndexOf(name, '.') == i
    ensures Stem(name) == name[..i] && Extension(name) == name[i..]
  {
  }

  /** The parts of a name whose last '.' is followed by the non-empty `ext`. */
  lemma SplitAtLastDot(stem: string, ext: string)
    requires ext != [] && '.' !in ext
    ensures var name := stem + "." + ext;
      LastIndexOf(name, '.') == |stem| && Stem(name) == stem && Extension(name) == "." + ext
  {
    var e := "." + ext;
    var name := stem + e;
    assert name == stem + "." + ext;
    LastDotBeforeExtension(stem, ext);
    PartsAtDot(name, |stem|);
    DropPrefix(stem, e);
  }

  /** Stem and extension put the name back together, except that a trailing '.' belongs
      to neither of them. */
  lemma StemAndExtension(name: string)
    ensures Extension(name) == "" || Extension(name)[0] == '.'
    ensures if name != [] && name[|name| - 1] == '.'
            then name == Stem(name) + "." && Extension(name) == ""
            else name == Stem(name) + Extension(name)
    ensures |Stem(name)| + |Extension(name)| + 1 >= |name|
  {
    var i := LastIndexOf(name, '.');
    LastIndexOfIsLast(name, '.');
    if 0 <= i {
      assert name == name[..i] + name[i..];
    }
  }

}
