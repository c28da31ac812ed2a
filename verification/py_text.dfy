/** The two pieces of Python's standard library that the worker's path
    derivation relies on: `os.path.splitext` on POSIX paths and `str` on
    integers. Strings are `seq<char>`. */
module PyText {

  /** `str.rfind` for a single character: the index of the last occurrence
      of `c` in `s`, or -1 when there is none. */
  function LastIndexOf(s: string, c: char): (r: int)
    ensures -1 <= r < |s|
    ensures r >= 0 ==> s[r] == c
    ensures forall k :: r < k < |s| ==> s[k] != c
  {
    if |s| == 0 then -1
    else if s[|s| - 1] == c then |s| - 1
    else LastIndexOf(s[..|s| - 1], c)
  }

  /** An extension as `splitext` returns it: empty, or a '.' followed by
      characters that are neither '.' nor '/'. */
  ghost predicate IsExtension(e: string)
  {
    e == [] || (e[0] == '.' && '.' !in e[1..] && '/' !in e)
  }

  /** No '/' at or after index `i` of `p`: position `i` lies in the base name. */
  ghost predicate InBaseName(p: string, i: nat)
  {
    forall m :: i <= m < |p| ==> p[m] != '/'
  }

  /** Reference definition: the base name of `p` (what follows its last '/')
      holds a '.' that comes after some character other than '.'. Leading dots
      of a base name (".bashrc") therefore do not start an extension. */
  ghost predicate HasExtension(p: string)
  {
    exists i, j :: 0 <= i < j < |p| && p[i] != '.' && p[j] == '.' && InBaseName(p, i)
  }

  /** `os.path.splitext(p)`: splits at the last '.' of the base name unless
      everything in the base name before that '.' is a dot. */
  function SplitExt(p: string): (r: (string, string))
    ensures r.0 + r.1 == p
    ensures IsExtension(r.1)
  {
    var sep := LastIndexOf(p, '/');
    var dot := LastIndexOf(p, '.');
    if sep < dot && exists k :: sep < k < dot && p[k] != '.' then
      assert p == p[..dot] + p[dot..];
      (p[..dot], p[dot..])
    else
      (p, [])
  }

  /** The extension is non-empty exactly when the reference definition says
      the name has one. */
  lemma SplitExtNonEmptyIff(p: string)
    ensures SplitExt(p).1 != [] <==> HasExtension(p)
  {
    var sep := LastIndexOf(p, '/');
    var dot := LastIndexOf(p, '.');
    if SplitExt(p).1 != [] {
      var k :| sep < k < dot && p[k] != '.';
      assert 0 <= k < dot < |p| && p[k] != '.' && p[dot] == '.' && InBaseName(p, k);
    }
    if HasExtension(p) {
      var i, j :| 0 <= i < j < |p| && p[i] != '.' && p[j] == '.' && InBaseName(p, i);
      assert sep < i < j <= dot && p[i] != '.';
    }
  }

  /** In `s + e` with `e` a non-empty extension, the '.' that starts `e` is
      the last '.'. */
  lemma ExtensionDotIsLast(s: string, e: string)
    requires IsExtension(e) && e != []
    ensures (s + e)[|s|] == '.'
    ensures forall k :: |s| < k < |s + e| ==> (s + e)[k] != '.'
  {
    forall k | |s| < k < |s + e| ensures (s + e)[k] != '.' {
      assert (s + e)[k] == e[1..][k - |s| - 1];
    }
  }

  /** Two extensions that end the same string are the same extension. */
  lemma ExtensionSuffixUnique(s1: string, e1: string, s2: string, e2: string)
    requires s1 + e1 == s2 + e2
    requires IsExtension(e1) && IsExtension(e2) && e1 != [] && e2 != []
    ensures s1 == s2 && e1 == e2
  {
    var q := s1 + e1;
    ExtensionDotIsLast(s1, e1);
    ExtensionDotIsLast(s2, e2);
    assert |s1| == |s2|;
    assert s1 == q[..|s1|] && s2 == q[..|s2|];
    assert e1 == q[|s1|..] && e2 == q[|s2|..];
  }

  /** Appending characters that are neither '.' nor '/' cannot create an
      extension. */
  lemma AppendKeepsNoExtension(p: string, mid: string)
    requires '.' !in mid && '/' !in mid
    ensures HasExtension(p + mid) ==> HasExtension(p)
  {
    var q := p + mid;
    if HasExtension(q) {
      var i, j :| 0 <= i < j < |q| && q[i] != '.' && q[j] == '.' && InBaseName(q, i);
      forall m | |p| <= m < |q| ensures q[m] != '.' {
        assert q[m] == mid[m - |p|];
      }
      assert j < |p|;
      assert InBaseName(p, i) by {
        forall m | i <= m < |p| ensures p[m] != '/' {
          assert p[m] == q[m];
        }
      }
      assert p[i] != '.' && p[j] == '.';
    }
  }

  /** Inserting a non-empty run of characters that are neither '.' nor '/'
      between a name's stem and its extension leaves the extension where it
      was: `splitext(stem + mid + ext) == (stem + mid, ext)`. */
  lemma SplitExtInsertBeforeExtension(p: string, mid: string)
    requires mid != [] && '.' !in mid && '/' !in mid
    ensures SplitExt(SplitExt(p).0 + mid + SplitExt(p).1)
            == (SplitExt(p).0 + mid, SplitExt(p).1)
  {
    var (stem, ext) := SplitExt(p);
    var q := stem + mid + ext;
    if ext == [] {
      SplitExtNonEmptyIff(p);
      AppendKeepsNoExtension(p, mid);
      assert q == p + mid;
      SplitExtNonEmptyIff(q);
    } else {
      var i, j := |stem|, |stem| + |mid|;
      assert q[i] == mid[0] && q[j] == ext[0];
      forall m | i <= m < |q| ensures q[m] != '/' {
        assert m < j ==> q[m] == mid[m - i];
        assert m >= j ==> q[m] == ext[m - j];
      }
      assert InBaseName(q, i);
      assert HasExtension(q);
      SplitExtNonEmptyIff(q);
      ExtensionSuffixUnique(SplitExt(q).0, SplitExt(q).1, stem + mid, ext);
    }
  }

  /** Equal strings that share a prefix and a suffix agree in between. */
  lemma MiddleCancel(pre: string, x: string, y: string, post: string)
    ensures pre + x + post == pre + y + post ==> x == y
  {
    var s, t := pre + x + post, pre + y + post;
    if s == t {
      assert |x| == |y|;
      assert x == s[|pre|..|pre| + |x|];
      assert y == t[|pre|..|pre| + |y|];
    }
  }

  /** The character for a decimal digit. */
  function DigitChar(d: nat): (c: char)
    requires d < 10
    ensures '0' <= c <= '9'
    ensures c as int - '0' as int == d
  {
    ('0' as int + d) as char
  }

  /** Every character of `s` is a decimal digit. */
  predicate IsDigits(s: string)
  {
    forall k :: 0 <= k < |s| ==> '0' <= s[k] <= '9'
  }

  /** `str(n)` for a non-negative integer: its decimal digits, most
      significant first, without leading zeros. */
  function NatToString(n: nat): (r: string)
    ensures r != [] && IsDigits(r)
    ensures n > 0 ==> r[0] != '0'
    ensures n < 10 <==> |r| == 1
  {
    if n < 10 then [DigitChar(n)] else NatToString(n / 10) + [DigitChar(n % 10)]
  }

  /** `str(n)` for any integer: a '-' sign in front of negative values. */
  function IntToString(n: int): (r: string)
    ensures r != []
    ensures forall k :: 0 <= k < |r| ==> r[k] != '.' && r[k] != '/'
    ensures r[0] == '-' <==> n < 0
  {
    if n < 0 then "-" + NatToString(-n) else NatToString(n)
  }

  /** Reads a string of decimal digits back as a number (the partner of
      NatToString, as Python's `int` is of `str`). */
  function ParseNat(s: string): nat
    requires IsDigits(s)
  {
    if s == [] then 0
    else ParseNat(s[..|s| - 1]) * 10 + (s[|s| - 1] as int - '0' as int)
  }

  /** Reads an optional '-' followed by digits; anything else reads as 0. */
  function ParseInt(s: string): int
  {
    if s != [] && s[0] == '-' && IsDigits(s[1..]) then 0 - ParseNat(s[1..])
    else if IsDigits(s) then ParseNat(s)
    else 0
  }

  lemma {:induction false} ParseNatToString(n: nat)
    ensures ParseNat(NatToString(n)) == n
  {
    var r := NatToString(n);
    if n >= 10 {
      var prefix := NatToString(n / 10);
      assert r[..|r| - 1] == prefix;
      ParseNatToString(n / 10);
    } else {
      assert r[..|r| - 1] == [];
    }
  }

  /** `int(str(n)) == n` for every integer. */
  lemma ParseIntToString(n: int)
    ensures ParseInt(IntToString(n)) == n
  {
    var r := IntToString(n);
    if n < 0 {
      assert r[1..] == NatToString(-n);
      ParseNatToString(-n);
    } else {
      ParseNatToString(n);
    }
  }

  /** Different integers are rendered differently. */
  lemma IntToStringInjective(a: int, b: int)
    requires IntToString(a) == IntToString(b)
    ensures a == b
  {
    ParseIntToString(a);
    ParseIntToString(b);
  }
}
