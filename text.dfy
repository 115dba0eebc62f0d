/** String operations of the Python standard library that the pipeline relies on:
    `str.split(sep)` for a one-character separator, `str.splitlines()`,
    `str.strip(chars)`, `'%d' % n`, and the substring tests behind `glob`. */
module Text {

  /** Number of occurrences of `c` in `s`. */
  function Count(s: string, c: char): nat
  {
    if |s| == 0 then 0 else (if s[0] == c then 1 else 0) + Count(s[1..], c)
  }

  /** The inverse of `Split`: the parts with `sep` between consecutive ones. */
  function JoinWith(parts: seq<string>, sep: char): string
    requires |parts| >= 1
  {
    if |parts| == 1 then parts[0] else parts[0] + [sep] + JoinWith(parts[1..], sep)
  }

  /** Python's `s.split(sep)`: the maximal sep-free pieces, empty pieces included. */
  function Split(s: string, sep: char): (parts: seq<string>)
    ensures |parts| == Count(s, sep) + 1
    ensures forall k :: 0 <= k < |parts| ==> sep !in parts[k]
    ensures JoinWith(parts, sep) == s
  {
    if |s| == 0 then [""]
    else
      var rest := Split(s[1..], sep);
      if s[0] == sep then
        assert s == [sep] + s[1..];
        [""] + rest
      else
        var parts := [[s[0]] + rest[0]] + rest[1..];
        assert parts[1..] == rest[1..];
        assert s == [s[0]] + s[1..];
        parts
  }

  lemma {:induction false} SplitNoSep(a: string, sep: char)
    requires sep !in a
    ensures Split(a, sep) == [a]
  {
    if |a| > 0 {
      assert sep !in a[1..];
      SplitNoSep(a[1..], sep);
      assert [a[0]] + a[1..] == a;
    }
  }

  lemma {:induction false} SplitPrefix(a: string, sep: char, b: string)
    requires sep !in a
    ensures Split(a + [sep] + b, sep) == [a] + Split(b, sep)
  {
    var s := a + [sep] + b;
    if |a| == 0 {
      assert s[1..] == b;
    } else {
      assert s[1..] == a[1..] + [sep] + b;
      assert sep !in a[1..];
      SplitPrefix(a[1..], sep, b);
      assert [a[0]] + a[1..] == a;
    }
  }

  /** Splitting the joined text gives the parts back, when no part holds the separator. */
  lemma {:induction false} SplitJoin(parts: seq<string>, sep: char)
    requires |parts| >= 1
    requires forall k :: 0 <= k < |parts| ==> sep !in parts[k]
    ensures Split(JoinWith(parts, sep), sep) == parts
  {
    if |parts| == 1 {
      SplitNoSep(parts[0], sep);
    } else {
      SplitJoin(parts[1..], sep);
      SplitPrefix(parts[0], sep, JoinWith(parts[1..], sep));
      assert [parts[0]] + parts[1..] == parts;
    }
  }

  /** The characters at which Python's `str.splitlines()` ends a line. */
  predicate IsLineBreak(c: char)
  {
    c == '\n' || c == '\r' || c == '\U{B}' || c == '\U{C}' || c == '\U{1C}' || c == '\U{1D}'
    || c == '\U{1E}' || c == '\U{85}' || c == '\U{2028}' || c == '\U{2029}'
  }

  predicate NoLineBreak(s: string)
  {
    forall k :: 0 <= k < |s| ==> !IsLineBreak(s[k])
  }

  /** Index of the first line break in `s`, or `|s|` when there is none. */
  function LineEnd(s: string): (i: nat)
    ensures i <= |s|
    ensures NoLineBreak(s[..i])
    ensures i < |s| ==> IsLineBreak(s[i])
  {
    if |s| == 0 || IsLineBreak(s[0]) then 0
    else
      var i := 1 + LineEnd(s[1..]);
      assert s[..i] == [s[0]] + s[1..][..i - 1];
      i
  }

  /** Python's `s.splitlines()`: the lines of `s` without their terminators; `\r\n` is one
      terminator, a final terminator does not start another line, and empty lines are kept. */
  function SplitLines(s: string): (lines: seq<string>)
    ensures forall k :: 0 <= k < |lines| ==> NoLineBreak(lines[k])
    decreases |s|
  {
    if |s| == 0 then []
    else
      var i := LineEnd(s);
      if i == |s| then
        assert s[..i] == s;
        [s]
      else
        [s[..i]] + SplitLines(s[NextLine(s, i)..])
  }

  /** Where the line after the break at `i` starts: `\r\n` counts as one break. */
  function NextLine(s: string, i: nat): (next: nat)
    requires i < |s|
    ensures i < next <= |s|
  {
    if s[i] == '\r' && i + 1 < |s| && s[i + 1] == '\n' then i + 2 else i + 1
  }

  /** The text a loop `for item in items: f.write('%s\n' % item)` writes. */
  function Serialize(items: seq<string>): string
  {
    if |items| == 0 then "" else items[0] + "\n" + Serialize(items[1..])
  }

  lemma {:induction false} SerializeAppend(a: seq<string>, b: seq<string>)
    ensures Serialize(a + b) == Serialize(a) + Serialize(b)
  {
    if |a| > 0 {
      assert (a + b)[1..] == a[1..] + b;
      SerializeAppend(a[1..], b);
    } else {
      assert a + b == b;
    }
  }

  /** Adding one more item to the text one line at a time, as the writing loops do. */
  lemma SerializeSnoc(items: seq<string>, i: nat)
    requires i < |items|
    ensures Serialize(items[..i + 1]) == Serialize(items[..i]) + items[i] + "\n"
  {
    assert items[..i + 1] == items[..i] + [items[i]];
    SerializeAppend(items[..i], [items[i]]);
    assert Serialize([items[i]]) == items[i] + "\n" + Serialize([]);
  }

  lemma SerializeEnd(items: seq<string>)
    ensures Serialize(items) == "" || Serialize(items)[|Serialize(items)| - 1] == '\n'
  {
    if |items| > 0 {
      var n := |items| - 1;
      SerializeSnoc(items, n);
      assert items[..n + 1] == items;
    }
  }

  lemma LineEndOfLine(a: string, b: string)
    requires NoLineBreak(a)
    ensures LineEnd(a + "\n" + b) == |a|
  {
    var s := a + "\n" + b;
    assert s[|a|] == '\n';
  }

  /** Round trip of the queue file: reading back what was written gives the same items. */
  lemma {:induction false} SplitLinesSerialize(items: seq<string>)
    requires forall k :: 0 <= k < |items| ==> NoLineBreak(items[k])
    ensures SplitLines(Serialize(items)) == items
  {
    if |items| > 0 {
      var s := Serialize(items);
      var rest := Serialize(items[1..]);
      assert s == items[0] + "\n" + rest;
      LineEndOfLine(items[0], rest);
      assert s[|items[0]|] == '\n';
      assert s[..|items[0]|] == items[0];
      assert s[|items[0]| + 1..] == rest;
      SplitLinesSerialize(items[1..]);
      assert [items[0]] + items[1..] == items;
    }
  }

  predicate EndsLine(s: string)
  {
    |s| == 0 || s[|s| - 1] == '\n'
  }

  lemma LineEndAppend(a: string, b: string)
    requires LineEnd(a) < |a|
    ensures LineEnd(a + b) == LineEnd(a)
  {
    var i := LineEnd(a);
    assert (a + b)[i] == a[i];
  }

  /** The first line break comes no later than any line break. */
  lemma {:induction false} LineEndBefore(s: string, k: nat)
    requires k < |s| && IsLineBreak(s[k])
    ensures LineEnd(s) <= k
  {
    if !IsLineBreak(s[0]) {
      assert s[1..][k - 1] == s[k];
      LineEndBefore(s[1..], k - 1);
    }
  }

  /** A text that ends a line can be read line by line independently of what follows it. */
  lemma {:induction false} SplitLinesAppend(a: string, b: string)
    requires EndsLine(a)
    ensures SplitLines(a + b) == SplitLines(a) + SplitLines(b)
    decreases |a|
  {
    if |a| == 0 {
      assert a + b == b;
    } else {
      var s := a + b;
      var i := LineEnd(a);
      LineEndBefore(a, |a| - 1);
      LineEndAppend(a, b);
      var next := NextLine(a, i);
      assert NextLine(s, i) == next by {
        assert s[i] == a[i];
        if i + 1 < |a| {
          assert s[i + 1] == a[i + 1];
        }
      }
      assert s[..i] == a[..i];
      assert s[next..] == a[next..] + b;
      var rest := a[next..];
      assert EndsLine(rest) by {
        if |rest| > 0 { assert rest[|rest| - 1] == a[|a| - 1]; }
      }
      SplitLinesAppend(rest, b);
      var first := [a[..i]];
      assert first + (SplitLines(rest) + SplitLines(b)) == (first + SplitLines(rest)) + SplitLines(b);
    }
  }

  /** `s` begins with `p`. */
  predicate IsPrefix(p: string, s: string)
  {
    |p| <= |s| && s[..|p|] == p
  }

  /** `s` ends with `p`: Python's `s.endswith(p)`. */
  predicate HasSuffix(s: string, p: string)
  {
    |p| <= |s| && s[|s| - |p|..] == p
  }

  /** `t` occurs somewhere in `s`: Python's `t in s`. */
  predicate HasInfix(s: string, t: string)
    decreases |s|
  {
    IsPrefix(t, s) || (|s| > 0 && HasInfix(s[1..], t))
  }

  lemma {:induction false} HasInfixAt(s: string, t: string, k: nat)
    requires k + |t| <= |s| && s[k..k + |t|] == t
    ensures HasInfix(s, t)
    decreases k
  {
    if k > 0 {
      assert s[1..][k - 1..k - 1 + |t|] == s[k..k + |t|];
      HasInfixAt(s[1..], t, k - 1);
    }
  }

  /** Python's `s.lstrip(chars)`. */
  function StripLeft(s: string, chars: set<char>): (r: string)
    ensures HasSuffix(s, r)
    ensures |r| > 0 ==> r[0] !in chars
    ensures forall k :: 0 <= k < |s| - |r| ==> s[k] in chars
  {
    if |s| > 0 && s[0] in chars then
      var r := StripLeft(s[1..], chars);
      assert s[|s| - |r|..] == s[1..][|s[1..]| - |r|..];
      r
    else s
  }

  lemma HasInfixBetween(p: string, t: string, rest: string)
    ensures HasInfix(p + t + rest, t)
  {
    var s := p + t + rest;
    assert s[|p|..|p| + |t|] == t;
    HasInfixAt(s, t, |p|);
  }

  /** Python's `s.rstrip(chars)`. */
  function StripRight(s: string, chars: set<char>): (r: string)
    ensures IsPrefix(r, s)
    ensures |r| > 0 ==> r[|r| - 1] !in chars
    ensures forall k :: |r| <= k < |s| ==> s[k] in chars
  {
    if |s| > 0 && s[|s| - 1] in chars then
      var r := StripRight(s[..|s| - 1], chars);
      assert s[..|s| - 1][..|r|] == s[..|r|];
      r
    else s
  }

  /** Python's `s.strip(chars)`. */
  function Strip(s: string, chars: set<char>): string
  {
    StripRight(StripLeft(s, chars), chars)
  }

  predicate IsDigit(c: char)
  {
    '0' <= c <= '9'
  }

  function DigitChar(d: nat): (c: char)
    requires d < 10
    ensures IsDigit(c)
  {
    "0123456789"[d]
  }

  /** `'%d' % n` for a natural number n. */
  function Decimal(n: nat): (s: string)
    ensures |s| >= 1
    ensures forall k :: 0 <= k < |s| ==> IsDigit(s[k])
    ensures (|s| == 1) == (n < 10)
  {
    if n < 10 then [DigitChar(n)] else Decimal(n / 10) + [DigitChar(n % 10)]
  }

  lemma DigitCharInjective(a: nat, b: nat)
    requires a < 10 && b < 10 && DigitChar(a) == DigitChar(b)
    ensures a == b
  {
  }

  /** Distinct numbers have distinct decimal texts. */
  lemma {:induction false} DecimalInjective(a: nat, b: nat)
    requires Decimal(a) == Decimal(b)
    ensures a == b
  {
    if a >= 10 && b >= 10 {
      var da, db := Decimal(a), Decimal(b);
      assert da[|da| - 1] == DigitChar(a % 10);
      assert db[|db| - 1] == DigitChar(b % 10);
      DigitCharInjective(a % 10, b % 10);
      assert da[..|da| - 1] == Decimal(a / 10);
      assert db[..|db| - 1] == Decimal(b / 10);
      DecimalInjective(a / 10, b / 10);
    } else if a < 10 && b < 10 {
      DigitCharInjective(a, b);
    }
  }
}
