/**
 * The PHP string primitives the plugin relies on, over Dafny strings:
 * `trim`, `explode`/`implode` on a one-character separator, the
 * `preg_replace('/\s+/', ' ', ...)` whitespace collapse, and PHP's
 * notion of an "empty" string.
 */
module PhpStrings {

  /** The characters `trim($s)` strips when no character list is given: " \t\n\r\0\x0B". */
  const TrimDefault: set<char> := {' ', '\t', '\n', '\r', '\0', '\U{B}'}

  /** The characters `\s` matches in a PCRE pattern without the `u` modifier. */
  const PcreSpace: set<char> := {' ', '\t', '\n', '\U{B}', '\U{C}', '\r'}

  /** `empty($s)` on a string, which is also PHP's falsiness of a string: "" and "0". */
  predicate IsPhpEmpty(s: string) {
    s == "" || s == "0"
  }

  /** `substr($s, -1) === '/'`. */
  predicate EndsWithSlash(s: string) {
    |s| > 0 && s[|s| - 1] == '/'
  }

  /** The number of occurrences of `c` in `s`. */
  function Count(c: char, s: string): nat {
    if s == [] then 0 else (if s[0] == c then 1 else 0) + Count(c, s[1..])
  }

  /** A string with `c` somewhere in it counts at least one `c`. */
  lemma {:induction false} CountAtLeastOne(c: char, a: string, b: string)
    ensures Count(c, a + [c] + b) >= 1
    decreases |a|
  {
    if a == [] {
      assert (a + [c] + b)[0] == c;
    } else {
      assert (a + [c] + b)[1..] == a[1..] + [c] + b;
      CountAtLeastOne(c, a[1..], b);
    }
  }

  /** Counting distributes over concatenation. */
  lemma {:induction false} CountAppend(c: char, a: string, b: string)
    ensures Count(c, a + b) == Count(c, a) + Count(c, b)
    decreases |a|
  {
    if a == [] {
      assert a + b == b;
    } else {
      assert (a + b)[1..] == a[1..] + b;
      CountAppend(c, a[1..], b);
    }
  }

  /** A string holding `c` counts at least one `c`. */
  lemma {:induction false} CountMember(c: char, s: string)
    requires c in s
    ensures Count(c, s) >= 1
  {
    var i :| 0 <= i < |s| && s[i] == c;
    assert s == s[..i] + [c] + s[i + 1..];
    CountAtLeastOne(c, s[..i], s[i + 1..]);
  }

  // ---------------------------------------------------------------- trim

  /** `ltrim($s, $cs)`: drops the longest prefix made of characters in `cs`. */
  function TrimLeft(s: string, cs: set<char>): (r: string)
    ensures |r| <= |s|
    ensures r == [] || r[0] !in cs
    ensures s != [] && s[0] in cs ==> |r| < |s|
  {
    if s != [] && s[0] in cs then TrimLeft(s[1..], cs) else s
  }

  /** `rtrim($s, $cs)`: drops the longest suffix made of characters in `cs`. */
  function TrimRight(s: string, cs: set<char>): (r: string)
    ensures |r| <= |s|
    ensures r == [] || r[|r| - 1] !in cs
  {
    if s != [] && s[|s| - 1] in cs then TrimRight(s[..|s| - 1], cs) else s
  }

  /** What `ltrim` leaves is a suffix of `s`, and everything before it is drawn from `cs`. */
  lemma {:induction false} TrimLeftSpec(s: string, cs: set<char>)
    ensures TrimLeft(s, cs) == s[|s| - |TrimLeft(s, cs)|..]
    ensures forall i :: 0 <= i < |s| - |TrimLeft(s, cs)| ==> s[i] in cs
    decreases |s|
  {
    if s != [] && s[0] in cs {
      TrimLeftSpec(s[1..], cs);
      forall i | 0 < i < |s| - |TrimLeft(s, cs)| ensures s[i] in cs {
        assert s[i] == s[1..][i - 1];
      }
    }
  }

  /** What `rtrim` leaves is a prefix of `s`, and everything after it is drawn from `cs`. */
  lemma {:induction false} TrimRightSpec(s: string, cs: set<char>)
    ensures TrimRight(s, cs) == s[..|TrimRight(s, cs)|]
    ensures forall i :: |TrimRight(s, cs)| <= i < |s| ==> s[i] in cs
    decreases |s|
  {
    if s != [] && s[|s| - 1] in cs {
      TrimRightSpec(s[..|s| - 1], cs);
      forall i | |TrimRight(s, cs)| <= i < |s| - 1 ensures s[i] in cs {
        assert s[i] == s[..|s| - 1][i];
      }
    }
  }

  /** `trim($s, $cs)`: what is left neither starts nor ends with a character of `cs`. */
  function Trim(s: string, cs: set<char>): (r: string)
    ensures |r| <= |s|
    ensures IsTrimmed(r, cs)
  {
    var l := TrimLeft(s, cs);
    TrimRightSpec(l, cs);
    TrimRight(l, cs)
  }

  /** A string that neither starts nor ends with a character of `cs`. */
  predicate IsTrimmed(s: string, cs: set<char>) {
    s == [] || (s[0] !in cs && s[|s| - 1] !in cs)
  }

  /** How many characters `trim` drops from the front of `s`. */
  function TrimStart(s: string, cs: set<char>): (n: nat)
    ensures n <= |s|
  {
    |s| - |TrimLeft(s, cs)|
  }

  /** The trimmed string is the infix of `s` left once the padding drawn from `cs` is dropped. */
  lemma {:induction false} TrimSpec(s: string, cs: set<char>)
    ensures TrimStart(s, cs) + |Trim(s, cs)| <= |s|
    ensures s[TrimStart(s, cs)..TrimStart(s, cs) + |Trim(s, cs)|] == Trim(s, cs)
    ensures forall k :: 0 <= k < TrimStart(s, cs) ==> s[k] in cs
    ensures forall k :: TrimStart(s, cs) + |Trim(s, cs)| <= k < |s| ==> s[k] in cs
  {
    var l := TrimLeft(s, cs);
    var r := TrimRight(l, cs);
    var i := |s| - |l|;
    TrimLeftSpec(s, cs);
    TrimRightSpec(l, cs);
    assert l == s[i..];
    assert r == l[..|r|];
    assert s[i..i + |r|] == r;
    forall k | i + |r| <= k < |s| ensures s[k] in cs {
      assert s[k] == l[k - i];
    }
  }

  /** Padding drawn from `cs` around a trimmed string is exactly what `trim` removes. */
  lemma {:induction false} TrimStripsPadding(a: string, m: string, b: string, cs: set<char>)
    requires forall k :: 0 <= k < |a| ==> a[k] in cs
    requires forall k :: 0 <= k < |b| ==> b[k] in cs
    requires IsTrimmed(m, cs)
    ensures Trim(a + m + b, cs) == m
  {
    var mb := m + b;
    assert a + m + b == a + mb;
    TrimLeftPadding(a, mb, cs);
    assert TrimLeft(a + m + b, cs) == TrimLeft(mb, cs);
    if m == [] {
      assert mb == b;
      TrimLeftPadding(b, [], cs);
      assert b + [] == b;
      assert TrimLeft(mb, cs) == [];
    } else {
      assert mb[0] == m[0];
      assert TrimLeft(mb, cs) == mb;
      TrimRightPadding(m, b, cs);
    }
  }

  lemma {:induction false} TrimLeftPadding(a: string, rest: string, cs: set<char>)
    requires forall k :: 0 <= k < |a| ==> a[k] in cs
    ensures TrimLeft(a + rest, cs) == TrimLeft(rest, cs)
  {
    if a != [] {
      assert (a + rest)[1..] == a[1..] + rest;
      TrimLeftPadding(a[1..], rest, cs);
    } else {
      assert a + rest == rest;
    }
  }

  lemma {:induction false} TrimRightPadding(m: string, b: string, cs: set<char>)
    requires m != [] && m[|m| - 1] !in cs
    requires forall k :: 0 <= k < |b| ==> b[k] in cs
    ensures TrimRight(m + b, cs) == m
  {
    if b == [] {
      assert m + b == m;
    } else {
      assert (m + b)[..|m + b| - 1] == m + b[..|b| - 1];
      TrimRightPadding(m, b[..|b| - 1], cs);
    }
  }

  /** Trimming is idempotent. */
  lemma {:induction false} TrimIdempotent(s: string, cs: set<char>)
    ensures Trim(Trim(s, cs), cs) == Trim(s, cs)
  {
    var m := Trim(s, cs);
    TrimStripsPadding([], m, [], cs);
    assert [] + m + [] == m;
  }

  // ------------------------------------------------------ explode / implode

  /** `explode($sep, $s)` for a one-character separator; it always yields at least one part. */
  function Explode(sep: char, s: string): (parts: seq<string>)
    ensures |parts| == 1 + Count(sep, s)
    ensures forall i :: 0 <= i < |parts| ==> sep !in parts[i]
    decreases |s|
  {
    if s == [] then [""]
    else
      var rest := Explode(sep, s[1..]);
      if s[0] == sep then [""] + rest
      else [[s[0]] + rest[0]] + rest[1..]
  }

  /** `implode($sep, $parts)`: the first part opens the result, and a separator stands between each two parts. */
  function Implode(sep: char, parts: seq<string>): (r: string)
    ensures |parts| > 0 ==> parts[0] <= r
    ensures |r| >= |parts| - 1
    decreases |parts|
  {
    if |parts| == 0 then ""
    else if |parts| == 1 then parts[0]
    else parts[0] + [sep] + Implode(sep, parts[1..])
  }

  /** Joining the parts of `explode` gives the string back. */
  lemma {:induction false} ImplodeExplode(sep: char, s: string)
    ensures Implode(sep, Explode(sep, s)) == s
    decreases |s|
  {
    if s != [] {
      var rest := Explode(sep, s[1..]);
      ImplodeExplode(sep, s[1..]);
      if s[0] == sep {
        assert Implode(sep, [""] + rest) == "" + [sep] + Implode(sep, rest);
        assert s == [s[0]] + s[1..];
      } else {
        var parts := [[s[0]] + rest[0]] + rest[1..];
        if |rest| == 1 {
          assert parts == [[s[0]] + rest[0]];
          assert s == [s[0]] + rest[0];
        } else {
          assert parts[1..] == rest[1..];
          assert Implode(sep, rest) == rest[0] + [sep] + Implode(sep, rest[1..]);
          assert s == [s[0]] + s[1..];
        }
      }
    }
  }

  /** Splitting a string with no separator in it yields just that string. */
  lemma {:induction false} ExplodeNoSeparator(sep: char, a: string)
    requires sep !in a
    ensures Explode(sep, a) == [a]
    decreases |a|
  {
    if a != [] {
      assert sep !in a[1..] by {
        forall k | 0 <= k < |a[1..]| ensures a[1..][k] != sep { assert a[1..][k] == a[k + 1]; }
      }
      ExplodeNoSeparator(sep, a[1..]);
      assert a == [a[0]] + a[1..];
    }
  }

  /** Splitting `a + sep + b` where `a` has no separator peels `a` off. */
  lemma {:induction false} ExplodeSplitsAtSeparator(sep: char, a: string, b: string)
    requires sep !in a
    ensures Explode(sep, a + [sep] + b) == [a] + Explode(sep, b)
    decreases |a|
  {
    if a == [] {
      assert a + [sep] + b == [sep] + b;
      assert ([sep] + b)[1..] == b;
    } else {
      assert (a + [sep] + b)[1..] == a[1..] + [sep] + b;
      assert sep !in a[1..] by {
        forall k | 0 <= k < |a[1..]| ensures a[1..][k] != sep { assert a[1..][k] == a[k + 1]; }
      }
      ExplodeSplitsAtSeparator(sep, a[1..], b);
      assert a == [a[0]] + a[1..];
    }
  }

  /** Splitting what `implode` joined gives the parts back, when no part holds the separator. */
  lemma {:induction false} ExplodeImplode(sep: char, parts: seq<string>)
    requires |parts| >= 1
    requires forall i :: 0 <= i < |parts| ==> sep !in parts[i]
    ensures Explode(sep, Implode(sep, parts)) == parts
    decreases |parts|
  {
    if |parts| == 1 {
      ExplodeNoSeparator(sep, parts[0]);
    } else {
      ExplodeImplode(sep, parts[1..]);
      ExplodeSplitsAtSeparator(sep, parts[0], Implode(sep, parts[1..]));
      assert parts == [parts[0]] + parts[1..];
    }
  }

  // ---------------------------------------------------- whitespace collapse

  /** The string with every `\s` character removed: what collapsing must not change. */
  function Visible(s: string): (r: string)
    ensures forall i :: 0 <= i < |r| ==> r[i] !in PcreSpace
  {
    if s == [] then [] else (if s[0] in PcreSpace then [] else [s[0]]) + Visible(s[1..])
  }

  /** `preg_replace('/\s+/', ' ', $s)`: every maximal run of `\s` characters becomes one space. */
  function CollapseWhitespace(s: string): (r: string)
    ensures r == [] <==> s == []
    ensures s != [] && s[0] !in PcreSpace ==> r[0] == s[0]
    ensures s != [] && s[0] in PcreSpace ==> r[0] == ' '
    decreases |s|
  {
    if s == [] then []
    else if s[0] in PcreSpace then " " + CollapseWhitespace(TrimLeft(s, PcreSpace))
    else [s[0]] + CollapseWhitespace(s[1..])
  }

  /** No `\s` character other than a space, and never two `\s` characters in a row. */
  predicate IsCollapsed(s: string) {
    forall i :: 0 <= i < |s| && s[i] in PcreSpace ==> s[i] == ' ' && (i + 1 == |s| || s[i + 1] !in PcreSpace)
  }

  /** A collapsed string holds no line break, tab or carriage return. */
  lemma CollapsedIsOneLine(s: string)
    requires IsCollapsed(s)
    ensures '\n' !in s && '\t' !in s && '\r' !in s
  {
    forall i | 0 <= i < |s| ensures s[i] != '\n' && s[i] != '\t' && s[i] != '\r' {
      if s[i] in PcreSpace {
        assert s[i] == ' ';
      }
    }
  }

  /** The collapsed string has no run of whitespace left. */
  lemma {:induction false} CollapseIsCollapsed(s: string)
    ensures IsCollapsed(CollapseWhitespace(s))
    decreases |s|
  {
    if s != [] {
      if s[0] in PcreSpace {
        var t := TrimLeft(s, PcreSpace);
        CollapseIsCollapsed(t);
        var ct := CollapseWhitespace(t);
        var r := " " + ct;
        forall i | 0 <= i < |r| && r[i] in PcreSpace
          ensures r[i] == ' ' && (i + 1 == |r| || r[i + 1] !in PcreSpace)
        {
          if i > 0 { assert r[i] == ct[i - 1]; }
          else if |r| > 1 { assert r[1] == ct[0] == t[0]; }
        }
      } else {
        CollapseIsCollapsed(s[1..]);
        var ct := CollapseWhitespace(s[1..]);
        var r := [s[0]] + ct;
        forall i | 0 <= i < |r| && r[i] in PcreSpace
          ensures r[i] == ' ' && (i + 1 == |r| || r[i + 1] !in PcreSpace)
        {
          assert i > 0 && r[i] == ct[i - 1];
        }
      }
    }
  }

  /** Collapsing keeps every non-whitespace character, in order. */
  lemma {:induction false} CollapseKeepsVisible(s: string)
    ensures Visible(CollapseWhitespace(s)) == Visible(s)
    decreases |s|
  {
    if s != [] {
      if s[0] in PcreSpace {
        var t := TrimLeft(s, PcreSpace);
        CollapseKeepsVisible(t);
        VisibleSkipsSpaces(s);
        assert (" " + CollapseWhitespace(t))[1..] == CollapseWhitespace(t);
      } else {
        CollapseKeepsVisible(s[1..]);
        assert ([s[0]] + CollapseWhitespace(s[1..]))[1..] == CollapseWhitespace(s[1..]);
      }
    }
  }

  lemma {:induction false} VisibleSkipsSpaces(s: string)
    ensures Visible(TrimLeft(s, PcreSpace)) == Visible(s)
    decreases |s|
  {
    if s != [] && s[0] in PcreSpace {
      VisibleSkipsSpaces(s[1..]);
    }
  }

  /** A collapsed string is left as it is, so collapsing is idempotent. */
  lemma {:induction false} CollapseFixesCollapsed(s: string)
    requires IsCollapsed(s)
    ensures CollapseWhitespace(s) == s
    decreases |s|
  {
    if s != [] {
      assert IsCollapsed(s[1..]) by {
        forall i | 0 <= i < |s[1..]| && s[1..][i] in PcreSpace
          ensures s[1..][i] == ' ' && (i + 1 == |s[1..]| || s[1..][i + 1] !in PcreSpace)
        {
          assert s[1..][i] == s[i + 1];
        }
      }
      if s[0] in PcreSpace {
        assert TrimLeft(s, PcreSpace) == s[1..] by {
          if |s| > 1 { assert s[1] !in PcreSpace; }
        }
        CollapseFixesCollapsed(s[1..]);
        assert s == " " + s[1..];
      } else {
        CollapseFixesCollapsed(s[1..]);
        assert s == [s[0]] + s[1..];
      }
    }
  }

  /** Every infix of a collapsed string is collapsed. */
  lemma {:induction false} InfixOfCollapsed(s: string, i: nat, j: nat)
    requires IsCollapsed(s) && i <= j <= |s|
    ensures IsCollapsed(s[i..j])
  {
    var t := s[i..j];
    forall k | 0 <= k < |t| && t[k] in PcreSpace
      ensures t[k] == ' ' && (k + 1 == |t| || t[k + 1] !in PcreSpace)
    {
      assert t[k] == s[i + k];
      if k + 1 < |t| { assert t[k + 1] == s[i + k + 1]; }
    }
  }

  /** Dropping leading padding from a string that holds a kept character leaves whatever follows it alone. */
  lemma {:induction false} TrimLeftAppend(a: string, rest: string, cs: set<char>)
    requires TrimLeft(a, cs) != []
    ensures TrimLeft(a + rest, cs) == TrimLeft(a, cs) + rest
    decreases |a|
  {
    if a[0] in cs {
      assert (a + rest)[1..] == a[1..] + rest;
      TrimLeftAppend(a[1..], rest, cs);
    }
  }

  /**
   * The join law of the collapse: a run of `\s` characters between two
   * visible characters becomes exactly one space, and each side is
   * collapsed on its own.
   */
  lemma {:induction false} CollapseJoin(a: string, w: string, b: string)
    requires a == [] || a[|a| - 1] !in PcreSpace
    requires w != [] && forall k :: 0 <= k < |w| ==> w[k] in PcreSpace
    requires b == [] || b[0] !in PcreSpace
    ensures CollapseWhitespace(a + w + b) == CollapseWhitespace(a) + " " + CollapseWhitespace(b)
  {
    CollapseLeadingRun(w, b);
    CollapseAppend(a, w + b);
    assert a + (w + b) == a + w + b;
  }

  /** A string ending in a visible character collapses independently of what follows it. */
  lemma {:induction false} CollapseAppend(a: string, rest: string)
    requires a == [] || a[|a| - 1] !in PcreSpace
    ensures CollapseWhitespace(a + rest) == CollapseWhitespace(a) + CollapseWhitespace(rest)
    decreases |a|
  {
    if a == [] {
      assert a + rest == rest;
    } else if a[0] !in PcreSpace {
      var a' := a[1..];
      assert a' == [] || a'[|a'| - 1] == a[|a| - 1];
      CollapseAppend(a', rest);
      CollapseAppendVisibleStep(a, rest);
    } else {
      LeadingSpacesKeepLast(a);
      CollapseAppend(TrimLeft(a, PcreSpace), rest);
      CollapseAppendSpaceStep(a, rest);
    }
  }

  /** `CollapseAppend` carried over a leading visible character. */
  lemma {:induction false} CollapseAppendVisibleStep(a: string, rest: string)
    requires a != [] && a[0] !in PcreSpace
    requires CollapseWhitespace(a[1..] + rest) == CollapseWhitespace(a[1..]) + CollapseWhitespace(rest)
    ensures CollapseWhitespace(a + rest) == CollapseWhitespace(a) + CollapseWhitespace(rest)
  {
    var s := a + rest;
    assert s[0] == a[0] && s[1..] == a[1..] + rest;
    CollapseVisibleHead(s);
    CollapseVisibleHead(a);
  }

  /** A visible first character is kept as it is, and the collapse goes on after it. */
  lemma CollapseVisibleHead(s: string)
    requires s != [] && s[0] !in PcreSpace
    ensures CollapseWhitespace(s) == [s[0]] + CollapseWhitespace(s[1..])
  {
  }

  /** `CollapseAppend` carried over leading padding, when something visible follows it in `a`. */
  lemma {:induction false} CollapseAppendSpaceStep(a: string, rest: string)
    requires a != [] && a[0] in PcreSpace && TrimLeft(a, PcreSpace) != []
    requires CollapseWhitespace(TrimLeft(a, PcreSpace) + rest)
          == CollapseWhitespace(TrimLeft(a, PcreSpace)) + CollapseWhitespace(rest)
    ensures CollapseWhitespace(a + rest) == CollapseWhitespace(a) + CollapseWhitespace(rest)
  {
    assert (a + rest)[0] == a[0];
    TrimLeftAppend(a, rest, PcreSpace);
  }

  /** A leading run of `\s` characters before a visible character becomes one space. */
  lemma {:induction false} CollapseLeadingRun(w: string, b: string)
    requires w != [] && forall k :: 0 <= k < |w| ==> w[k] in PcreSpace
    requires b == [] || b[0] !in PcreSpace
    ensures CollapseWhitespace(w + b) == " " + CollapseWhitespace(b)
  {
    assert (w + b)[0] == w[0];
    TrimLeftPadding(w, b, PcreSpace);
    assert TrimLeft(b, PcreSpace) == b;
  }

  /** What `ltrim` leaves of a string ending in a kept character still ends in that character. */
  lemma {:induction false} LeadingSpacesKeepLast(a: string)
    requires a != [] && a[|a| - 1] !in PcreSpace
    ensures var t := TrimLeft(a, PcreSpace); t != [] && t[|t| - 1] == a[|a| - 1]
    decreases |a|
  {
    if a[0] in PcreSpace {
      assert |a| > 1;
      assert a[1..][|a| - 2] == a[|a| - 1];
      LeadingSpacesKeepLast(a[1..]);
    }
  }

  /** `Visible` distributes over concatenation. */
  lemma {:induction false} VisibleAppend(x: string, y: string)
    ensures Visible(x + y) == Visible(x) + Visible(y)
    decreases |x|
  {
    if x != [] {
      assert (x + y)[1..] == x[1..] + y;
      VisibleAppend(x[1..], y);
    } else {
      assert x + y == y;
    }
  }

  /** A string of `\s` characters has nothing visible. */
  lemma {:induction false} VisibleOfSpaces(x: string)
    requires forall k :: 0 <= k < |x| ==> x[k] in PcreSpace
    ensures Visible(x) == []
    decreases |x|
  {
    if x != [] {
      VisibleOfSpaces(x[1..]);
    }
  }

  /** Every character `Visible` keeps is a character of the string. */
  lemma {:induction false} VisibleIsFromString(x: string, c: char)
    requires c in Visible(x)
    ensures c in x
    decreases |x|
  {
    if c != x[0] {
      VisibleIsFromString(x[1..], c);
    }
  }

  /** Every non-`\s` character of the string is kept by `Visible`. */
  lemma {:induction false} VisibleKeeps(x: string, c: char)
    requires c in x && c !in PcreSpace
    ensures c in Visible(x)
    decreases |x|
  {
    if c != x[0] {
      VisibleKeeps(x[1..], c);
    }
  }

  /** `ltrim` introduces no character. */
  lemma {:induction false} TrimLeftAbsent(s: string, cs: set<char>, c: char)
    requires c !in s
    ensures c !in TrimLeft(s, cs)
    decreases |s|
  {
    if s != [] && s[0] in cs {
      assert s == [s[0]] + s[1..];
      TrimLeftAbsent(s[1..], cs, c);
    }
  }

  /** The collapse introduces no character other than a space. */
  lemma {:induction false} CollapseAbsent(s: string, c: char)
    requires c !in s && c != ' '
    ensures c !in CollapseWhitespace(s)
    decreases |s|
  {
    if s != [] {
      assert s == [s[0]] + s[1..];
      if s[0] in PcreSpace {
        TrimLeftAbsent(s, PcreSpace, c);
        CollapseAbsent(TrimLeft(s, PcreSpace), c);
      } else {
        CollapseAbsent(s[1..], c);
      }
    }
  }

  /** `trim` drops only invisible characters from a string without NUL bytes. */
  lemma {:induction false} TrimKeepsVisible(c: string)
    requires '\0' !in c
    ensures Visible(Trim(c, TrimDefault)) == Visible(c)
  {
    var r := Trim(c, TrimDefault);
    var st := TrimStart(c, TrimDefault);
    TrimSpec(c, TrimDefault);
    var pre, post := c[..st], c[st + |r|..];
    assert c == pre + r + post;
    forall k | 0 <= k < |pre| ensures pre[k] in PcreSpace {
      assert pre[k] == c[k];
    }
    forall k | 0 <= k < |post| ensures post[k] in PcreSpace {
      assert post[k] == c[st + |r| + k];
    }
    VisibleOfSpaces(pre);
    VisibleOfSpaces(post);
    VisibleAppend(pre + r, post);
    VisibleAppend(pre, r);
  }
}
