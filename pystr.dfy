/**
 * The handful of Python `str` operations the command line tool relies on,
 * written out with Python's semantics: `strip` (with and without an explicit
 * character set), `split` on one separator character and the `[-1]` field it
 * yields, and `replace(pat, "")`, which removes non-overlapping occurrences of
 * `pat` from left to right.
 */
module PyStr {

  /** The argument of `str.strip`: none (whitespace) or an explicit set of characters. */
  datatype StripChars = Whitespace | Chars(cs: set<char>)

  /** Python's `str.isspace` for one character (every code point it accepts). */
  predicate IsSpace(c: char) {
    || ('\t' <= c <= '\r')
    || ('\U{1c}' <= c <= ' ')
    || c == '\U{85}' || c == '\U{a0}' || c == '\U{1680}'
    || ('\U{2000}' <= c <= '\U{200a}')
    || c == '\U{2028}' || c == '\U{2029}' || c == '\U{202f}' || c == '\U{205f}' || c == '\U{3000}'
  }

  /** Whether `strip(chars)` removes `c` when `c` stands at an end of the string. */
  predicate Strips(chars: StripChars, c: char) {
    match chars
    case Whitespace => IsSpace(c)
    case Chars(cs) => c in cs
  }

  /** `s.lstrip(chars)`: drops leading characters in `chars`. */
  function LStrip(s: string, chars: StripChars): string {
    if |s| > 0 && Strips(chars, s[0]) then LStrip(s[1..], chars) else s
  }

  /** What `lstrip` leaves: the suffix after the longest prefix made of characters in `chars`. */
  lemma {:induction false} LStripSpec(s: string, chars: StripChars)
    ensures var r := LStrip(s, chars);
            && |r| <= |s| && r == s[|s| - |r|..]
            && (forall k :: 0 <= k < |s| - |r| ==> Strips(chars, s[k]))
            && (r == [] || !Strips(chars, r[0]))
  {
    if |s| > 0 && Strips(chars, s[0]) {
      var r := LStrip(s, chars);
      LStripSpec(s[1..], chars);
      assert s[1..][|s| - 1 - |r|..] == s[|s| - |r|..];
      forall k | 0 <= k < |s| - |r| ensures Strips(chars, s[k]) {
        if k > 0 {
          assert s[k] == s[1..][k - 1];
        }
      }
    }
  }

  /** `s.rstrip(chars)`: drops trailing characters in `chars`. */
  function RStrip(s: string, chars: StripChars): string {
    if |s| > 0 && Strips(chars, s[|s| - 1]) then RStrip(s[..|s| - 1], chars) else s
  }

  /** What `rstrip` leaves: the prefix before the longest suffix made of characters in `chars`. */
  lemma {:induction false} RStripSpec(s: string, chars: StripChars)
    ensures var r := RStrip(s, chars);
            && |r| <= |s| && r == s[..|r|]
            && (forall k :: |r| <= k < |s| ==> Strips(chars, s[k]))
            && (r == [] || !Strips(chars, r[|r| - 1]))
  {
    if |s| > 0 && Strips(chars, s[|s| - 1]) {
      var r := RStrip(s, chars);
      RStripSpec(s[..|s| - 1], chars);
      assert s[..|s| - 1][..|r|] == s[..|r|];
      forall k | |r| <= k < |s| ensures Strips(chars, s[k]) {
        if k < |s| - 1 {
          assert s[k] == s[..|s| - 1][k];
        }
      }
    }
  }

  /** Where the result of `Strip(s, chars)` starts inside `s`. */
  function StripOffset(s: string, chars: StripChars): nat {
    LStripSpec(s, chars);
    |s| - |LStrip(s, chars)|
  }

  /** `s.strip(chars)`: `lstrip`, then `rstrip`. */
  function Strip(s: string, chars: StripChars): string {
    RStrip(LStrip(s, chars), chars)
  }

  /**
   * `strip` keeps the unique infix of `s` whose ends are not in `chars` and
   * outside of which every character is in `chars`.
   */
  lemma StripSpec(s: string, chars: StripChars)
    ensures var r, o := Strip(s, chars), StripOffset(s, chars);
            && o + |r| <= |s| && r == s[o..o + |r|]
            && (forall k :: 0 <= k < |s| && !(o <= k < o + |r|) ==> Strips(chars, s[k]))
            && (r == [] || (!Strips(chars, r[0]) && !Strips(chars, r[|r| - 1])))
  {
    var l := LStrip(s, chars);
    LStripSpec(s, chars);
    RStripSpec(l, chars);
    var r := RStrip(l, chars);
    assert forall k :: |r| <= k < |l| ==> l[k] == s[StripOffset(s, chars) + k];
  }

  /**
   * `strip` is determined by its characterisation: an infix with clean ends
   * outside of which every character is strippable is the result.
   */
  lemma StripUnique(s: string, chars: StripChars, o: nat, r: string)
    requires o + |r| <= |s| && r == s[o..o + |r|]
    requires forall k | 0 <= k < |s| && !(o <= k < o + |r|) :: Strips(chars, s[k])
    requires r == [] || (!Strips(chars, r[0]) && !Strips(chars, r[|r| - 1]))
    ensures Strip(s, chars) == r
  {
    var r', o' := Strip(s, chars), StripOffset(s, chars);
    StripSpec(s, chars);
    assert r != [] ==> r[0] == s[o] && r[|r| - 1] == s[o + |r| - 1];
    assert r' != [] ==> r'[0] == s[o'] && r'[|r'| - 1] == s[o' + |r'| - 1];
    assert |r| == |r'| && (r != [] ==> o == o');
  }

  /** Dropping a whitespace tail before `strip()` changes nothing. */
  lemma StripSpaceTail(x: string, n: nat)
    requires n <= |x|
    requires forall k | n <= k < |x| :: IsSpace(x[k])
    ensures Strip(x[..n], Whitespace) == Strip(x, Whitespace)
  {
    var y := x[..n];
    var r, o := Strip(y, Whitespace), StripOffset(y, Whitespace);
    StripSpec(y, Whitespace);
    assert r == x[o..o + |r|] by {
      assert y[o..o + |r|] == x[o..o + |r|];
    }
    forall k | 0 <= k < |x| && !(o <= k < o + |r|) ensures Strips(Whitespace, x[k]) {
      if k < n {
        assert x[k] == y[k];
      }
    }
    StripUnique(x, Whitespace, o, r);
  }

  /** A string whose ends `strip(chars)` would not touch. */
  predicate IsStripped(s: string, chars: StripChars) {
    s == [] || (!Strips(chars, s[0]) && !Strips(chars, s[|s| - 1]))
  }

  /** Stripping a string whose ends are already clean returns it unchanged. */
  lemma StripUnchanged(s: string, chars: StripChars)
    requires IsStripped(s, chars)
    ensures Strip(s, chars) == s
  {
    var r, o := Strip(s, chars), StripOffset(s, chars);
    StripSpec(s, chars);
    if s != [] {
      assert !Strips(chars, s[0]) && !Strips(chars, s[|s| - 1]);
      assert o == 0;
      assert |r| == |s|;
    }
  }

  /**
   * Stripping a string with one strippable character at each end, and a
   * character to keep next to each, removes just those two.
   */
  lemma StripSingle(s: string, chars: StripChars)
    requires |s| >= 3
    requires Strips(chars, s[0]) && Strips(chars, s[|s| - 1])
    requires !Strips(chars, s[1]) && !Strips(chars, s[|s| - 2])
    ensures Strip(s, chars) == s[1..|s| - 1]
  {
    var r, o := Strip(s, chars), StripOffset(s, chars);
    StripSpec(s, chars);
    assert o == 1;
    assert o + |r| == |s| - 1;
  }

  /** `strip` is idempotent. */
  lemma StripIdempotent(s: string, chars: StripChars)
    ensures Strip(Strip(s, chars), chars) == Strip(s, chars)
  {
    StripSpec(s, chars);
    StripUnchanged(Strip(s, chars), chars);
  }

  /**
   * A character that `strip` does not remove survives it: it is in the
   * result whenever it is in the input.
   */
  lemma StripKeeps(s: string, chars: StripChars, c: char)
    requires c in s && !Strips(chars, c)
    ensures c in Strip(s, chars)
  {
    var r, o := Strip(s, chars), StripOffset(s, chars);
    StripSpec(s, chars);
    var j :| 0 <= j < |s| && s[j] == c;
    assert o <= j < o + |r|;
    assert r[j - o] == c;
  }

  /** Every character of `Strip(s, chars)` is a character of `s`. */
  lemma StripFrom(s: string, chars: StripChars, c: char)
    requires c !in s
    ensures c !in Strip(s, chars)
  {
    var r, o := Strip(s, chars), StripOffset(s, chars);
    StripSpec(s, chars);
    forall j | 0 <= j < |r| ensures r[j] != c {
      assert r[j] == s[o + j];
    }
  }

  /**
   * `s.split(sep)`: the fields between occurrences of `sep`; there is always
   * at least one, and exactly one iff `sep` does not occur.
   */
  function Split(s: string, sep: char): (fields: seq<string>)
    ensures |fields| >= 1
    ensures |fields| == 1 <==> sep !in s
    ensures forall i :: 0 <= i < |fields| ==> sep !in fields[i]
  {
    if s == [] then [[]]
    else
      var rest := Split(s[1..], sep);
      assert s == [s[0]] + s[1..];
      if s[0] == sep then [[]] + rest else [[s[0]] + rest[0]] + rest[1..]
  }

  /** `sep.join(fields)`, the inverse of `Split`. */
  function Join(fields: seq<string>, sep: char): (s: string)
    requires |fields| >= 1
  {
    if |fields| == 1 then fields[0] else fields[0] + [sep] + Join(fields[1..], sep)
  }

  /** Splitting on `sep` and joining with `sep` gives back the string. */
  lemma {:induction false} JoinSplit(s: string, sep: char)
    ensures Join(Split(s, sep), sep) == s
  {
    if s != [] {
      var rest := Split(s[1..], sep);
      JoinSplit(s[1..], sep);
      if s[0] == sep {
        assert Split(s, sep)[1..] == rest;
      } else {
        var fields := Split(s, sep);
        if |rest| == 1 {
          assert fields == [[s[0]] + rest[0]];
        } else {
          assert fields[1..] == rest[1..];
          assert Join(rest, sep) == rest[0] + [sep] + Join(rest[1..], sep);
        }
      }
    }
  }

  /** `s.split(sep)[-1]`. */
  function LastField(s: string, sep: char): string {
    if sep in s then LastField(s[1..], sep) else s
  }

  /** `LastField` is what follows the last `sep`, or all of `s` when there is none. */
  lemma {:induction false} LastFieldSpec(s: string, sep: char)
    ensures var r := LastField(s, sep);
            && |r| <= |s| && r == s[|s| - |r|..]
            && sep !in r
            && (|r| < |s| ==> s[|s| - |r| - 1] == sep)
  {
    if sep in s {
      LastFieldSpec(s[1..], sep);
    }
  }

  /** `LastField` is the last element of `Split`, as Python's `[-1]` is. */
  lemma {:induction false} LastFieldIsLastSplit(s: string, sep: char)
    ensures LastField(s, sep) == Split(s, sep)[|Split(s, sep)| - 1]
  {
    if s != [] {
      LastFieldIsLastSplit(s[1..], sep);
      assert s == [s[0]] + s[1..];
    }
  }

  /** Whatever precedes the last separator, `LastField` recovers a separator-free suffix exactly. */
  lemma {:induction false} LastFieldAfter(prefix: string, sep: char, value: string)
    requires sep !in value
    ensures LastField(prefix + [sep] + value, sep) == value
  {
    var s := prefix + [sep] + value;
    assert s[|prefix|] == sep;
    if prefix != [] {
      assert s[1..] == prefix[1..] + [sep] + value;
      LastFieldAfter(prefix[1..], sep, value);
    } else {
      assert s[1..] == value;
    }
  }

  /** `pat` occurs in `s` starting at index `i`. */
  predicate OccursAt(s: string, i: int, pat: string) {
    0 <= i && i + |pat| <= |s| && s[i..i + |pat|] == pat
  }

  /** `pat` occurs somewhere in `s` (Python's `pat in s`). */
  predicate Occurs(s: string, pat: string) {
    exists i | 0 <= i <= |s| :: OccursAt(s, i, pat)
  }

  /** A slice of a slice is a slice of the original. */
  lemma SliceOfSlice(s: string, lo: nat, hi: nat, a: nat, b: nat)
    requires lo <= hi <= |s| && a <= b <= hi - lo
    ensures s[lo..hi][a..b] == s[lo + a..lo + b]
  {
    forall k | 0 <= k < b - a ensures s[lo..hi][a..b][k] == s[lo + a..lo + b][k] {
      assert s[lo..hi][a..b][k] == s[lo..hi][a + k] == s[lo + a + k];
    }
  }

  /** An infix of a string in which `pat` does not occur does not contain `pat` either. */
  lemma NotOccursInInfix(s: string, lo: nat, hi: nat, pat: string)
    requires lo <= hi <= |s| && !Occurs(s, pat)
    ensures !Occurs(s[lo..hi], pat)
  {
    forall i | 0 <= i <= hi - lo ensures !OccursAt(s[lo..hi], i, pat) {
      if i + |pat| <= hi - lo {
        SliceOfSlice(s, lo, hi, i, i + |pat|);
        assert !OccursAt(s, lo + i, pat);
      }
    }
  }

  /**
   * `s.replace(pat, "")`: scanning from the left, every occurrence of `pat`
   * that does not overlap one already removed is deleted.
   */
  function RemoveAll(s: string, pat: string): (r: string)
    requires |pat| > 0
    ensures |r| <= |s|
    decreases |s|
  {
    if |s| < |pat| then s
    else if s[..|pat|] == pat then RemoveAll(s[|pat|..], pat)
    else [s[0]] + RemoveAll(s[1..], pat)
  }

  /** Removing a pattern that does not occur changes nothing. */
  lemma {:induction false} RemoveAllAbsent(s: string, pat: string)
    requires |pat| > 0 && !Occurs(s, pat)
    ensures RemoveAll(s, pat) == s
    decreases |s|
  {
    if |s| >= |pat| {
      assert !OccursAt(s, 0, pat);
      NotOccursInInfix(s, 1, |s|, pat);
      assert s[1..|s|] == s[1..];
      RemoveAllAbsent(s[1..], pat);
      assert s == [s[0]] + s[1..];
    }
  }

  /** Three backticks: the Markdown code-fence marker. */
  const Fence: string := "```"

  /**
   * Removing every fence from left to right leaves no fence behind: within a
   * maximal run of backticks fewer than three are left, and two runs never
   * merge, because a removal only ever starts at the beginning of a run.
   * The second conjunct says that a string not starting with a backtick
   * keeps its first character, which the induction needs.
   */
  lemma {:induction false} RemoveFencesLeavesNone(s: string)
    ensures !Occurs(RemoveAll(s, Fence), Fence)
    ensures |s| > 0 && s[0] != '`' ==> |RemoveAll(s, Fence)| > 0 && RemoveAll(s, Fence)[0] == s[0]
    decreases |s|
  {
    var r := RemoveAll(s, Fence);
    if |s| < 3 {
      assert r == s;
    } else if s[..3] == Fence {
      RemoveFencesLeavesNone(s[3..]);
    } else {
      var rest := RemoveAll(s[1..], Fence);
      RemoveFencesLeavesNone(s[1..]);
      assert r == [s[0]] + rest;
      forall i | 0 <= i <= |r| ensures !OccursAt(r, i, Fence) {
        if 0 < i && i + 3 <= |r| {
          assert r[i..i + 3] == rest[i - 1..i - 1 + 3];
          assert !OccursAt(rest, i - 1, Fence);
        } else if i == 0 && 3 <= |r| {
          // one of the next two characters of s ends the run of backticks
          if s[0] == '`' && s[1] == '`' {
            assert s[2] != '`';
            if |s| == 3 {
              assert rest == s[1..];
            } else {
              assert s[1..][..3] != Fence;
              RemoveFencesLeavesNone(s[2..]);
              assert rest == [s[1]] + RemoveAll(s[2..], Fence);
            }
            assert r[2] != '`';
          } else if s[0] == '`' {
            assert r[1] != '`';
          }
        }
      }
    }
  }

  /** `s` without any of its backticks. */
  function DropTicks(s: string): (r: string)
    ensures '`' !in r
  {
    if s == [] then []
    else (if s[0] == '`' then [] else [s[0]]) + DropTicks(s[1..])
  }

  lemma {:induction false} DropTicksAppend(a: string, b: string)
    ensures DropTicks(a + b) == DropTicks(a) + DropTicks(b)
  {
    if a == [] {
      assert a + b == b;
    } else {
      assert (a + b)[0] == a[0];
      assert (a + b)[1..] == a[1..] + b;
      DropTicksAppend(a[1..], b);
    }
  }

  /** Removing fences deletes backticks only: every other character stays, in order. */
  lemma {:induction false} RemoveFencesKeepsText(s: string)
    ensures DropTicks(RemoveAll(s, Fence)) == DropTicks(s)
    decreases |s|
  {
    if |s| >= 3 {
      if s[..3] == Fence {
        RemoveFencesKeepsText(s[3..]);
        assert s == Fence + s[3..];
        DropTicksAppend(Fence, s[3..]);
      } else {
        RemoveFencesKeepsText(s[1..]);
        assert s == [s[0]] + s[1..];
        DropTicksAppend([s[0]], RemoveAll(s[1..], Fence));
        DropTicksAppend([s[0]], s[1..]);
      }
    }
  }
}
