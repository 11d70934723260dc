/**
 * The JavaScript string operations the widget relies on, written out over
 * `string` (a sequence of code points): `indexOf`, `includes`, `split` with a
 * string separator, `replace` of a one-character string, `trim`, and the
 * decimal rendering of an integer inside a template literal.
 */
module Text {
  import opened Wrappers

  /** `sep` occurs in `s` starting at index `i`. */
  predicate OccursAt(s: string, sep: string, i: int) {
    0 <= i && i + |sep| <= |s| && s[i..i + |sep|] == sep
  }

  /** A one-character separator occurs exactly where that character stands. */
  lemma OccursAtChar(s: string, c: char, i: int)
    ensures OccursAt(s, [c], i) <==> 0 <= i < |s| && s[i] == c
  {
    if 0 <= i < |s| {
      assert s[i..i + 1] == [s[i]];
    }
  }

  /** The first index at or after `from` where `sep` occurs. */
  function IndexOfFrom(s: string, sep: string, from: nat): (r: Option<nat>)
    requires from <= |s|
    ensures r.Some? ==> from <= r.value && OccursAt(s, sep, r.value)
    ensures forall j :: from <= j && (r.None? || j < r.value) ==> !OccursAt(s, sep, j)
    decreases |s| - from
  {
    if from + |sep| > |s| then None
    else if s[from..from + |sep|] == sep then Some(from)
    else
      assert |sep| > 0;
      IndexOfFrom(s, sep, from + 1)
  }

  /** `String.prototype.indexOf`: the first occurrence of `sep` in `s`, if any. */
  function IndexOf(s: string, sep: string): (r: Option<nat>)
    ensures r.Some? ==> OccursAt(s, sep, r.value)
    ensures r.Some? ==> forall j :: 0 <= j < r.value ==> !OccursAt(s, sep, j)
    ensures r.None? ==> forall j :: !OccursAt(s, sep, j)
  {
    IndexOfFrom(s, sep, 0)
  }

  /** `String.prototype.includes`; the empty string is included in every string. */
  predicate Includes(s: string, sub: string) {
    IndexOf(s, sub).Some?
  }

  lemma IncludesIffOccurs(s: string, sub: string)
    ensures Includes(s, sub) <==> exists j :: OccursAt(s, sub, j)
  {
    if Includes(s, sub) {
      assert OccursAt(s, sub, IndexOf(s, sub).value);
    }
  }

  /** An occurrence inside a prefix of `s` is an occurrence in `s`. */
  lemma OccursInPrefix(s: string, sep: string, i: nat, j: int)
    requires i <= |s| && OccursAt(s[..i], sep, j)
    ensures OccursAt(s, sep, j) && j + |sep| <= i
  {
    assert s[..i][j..j + |sep|] == s[j..j + |sep|];
  }

  /** An occurrence inside a suffix of `s` is an occurrence in `s`, shifted. */
  lemma OccursInSuffix(s: string, sep: string, i: nat, j: int)
    requires i <= |s| && OccursAt(s[i..], sep, j)
    ensures OccursAt(s, sep, i + j)
  {
    assert s[i..][j..j + |sep|] == s[i + j..i + j + |sep|];
  }

  /** Joins `parts` with `sep` between consecutive parts (`Array.prototype.join`). */
  function Join(parts: seq<string>, sep: string): string {
    if parts == [] then ""
    else if |parts| == 1 then parts[0]
    else parts[0] + sep + Join(parts[1..], sep)
  }

  /**
   * `String.prototype.split` with a non-empty string separator. The parts,
   * joined again with the separator, give back `s`, and no part contains the
   * separator; there are at least two parts exactly when `s` contains it.
   */
  function Split(s: string, sep: string): (parts: seq<string>)
    requires |sep| > 0
    ensures |parts| >= 1
    ensures |parts| >= 2 <==> Includes(s, sep)
    ensures forall k :: 0 <= k < |parts| ==> !Includes(parts[k], sep)
    ensures Join(parts, sep) == s
    decreases |s|
  {
    match IndexOf(s, sep)
    case None =>
      [s]
    case Some(i) =>
      var head, rest := s[..i], s[i + |sep|..];
      var tail := Split(rest, sep);
      assert !Includes(head, sep) by {
        if Includes(head, sep) {
          OccursInPrefix(s, sep, i, IndexOf(head, sep).value);
        }
      }
      assert s == head + sep + rest by {
        assert s[i..i + |sep|] == sep;
        assert s == s[..i] + s[i..i + |sep|] + s[i + |sep|..];
      }
      var parts := [head] + tail;
      assert parts[1..] == tail;
      parts
  }

  /** A string without the separator splits into itself alone. */
  lemma SplitWithoutSeparator(s: string, sep: string)
    requires |sep| > 0 && !Includes(s, sep)
    ensures Split(s, sep) == [s]
  {
  }

  /** A string includes a one-character string exactly when it holds that character. */
  lemma IncludesChar(s: string, c: char)
    ensures Includes(s, [c]) <==> c in s
  {
    IncludesIffOccurs(s, [c]);
    if c in s {
      var i :| 0 <= i < |s| && s[i] == c;
      OccursAtChar(s, c, i);
    }
    if Includes(s, [c]) {
      var j :| OccursAt(s, [c], j);
      OccursAtChar(s, c, j);
    }
  }

  /**
   * `s.replace(c, '')` for a one-character pattern: removes the first
   * occurrence of `c`, if there is one, and leaves everything else in order.
   */
  function RemoveFirst(s: string, c: char): (r: string)
    ensures c !in s ==> r == s
    ensures c in s ==> |r| == |s| - 1
  {
    if s == [] then []
    else if s[0] == c then s[1..]
    else
      assert s == [s[0]] + s[1..];
      [s[0]] + RemoveFirst(s[1..], c)
  }

  /** Exactly one copy of `c` is removed when there is one, and nothing else. */
  lemma {:induction false} RemoveFirstMultiset(s: string, c: char)
    ensures multiset(RemoveFirst(s, c)) == if c in s then multiset(s) - multiset{c} else multiset(s)
  {
    if s != [] {
      assert s == [s[0]] + s[1..];
      if s[0] != c {
        RemoveFirstMultiset(s[1..], c);
        assert c in s <==> c in s[1..];
      }
    }
  }

  /** The count of each character after removing the first `c`. */
  lemma RemoveFirstCount(s: string, c: char, x: char)
    ensures multiset(RemoveFirst(s, c))[x] == if x == c && c in s then multiset(s)[x] - 1 else multiset(s)[x]
  {
    RemoveFirstMultiset(s, c);
  }

  /** Removing a character never adds one and shortens by at most one. */
  lemma RemoveFirstShrinks(s: string, c: char)
    ensures |s| - 1 <= |RemoveFirst(s, c)| <= |s| && multiset(RemoveFirst(s, c)) <= multiset(s)
  {
    RemoveFirstMultiset(s, c);
  }

  /** `RemoveFirst` cuts at the first `c`: everything before it is kept, the `c` there is dropped. */
  lemma {:induction false} RemoveFirstCutsFirst(s: string, c: char, i: nat)
    requires i < |s| && s[i] == c && c !in s[..i]
    ensures RemoveFirst(s, c) == s[..i] + s[i + 1..]
  {
    if i > 0 {
      var t := s[1..];
      assert s[0] != c by { assert s[0] == s[..i][0]; }
      assert s[..i] == [s[0]] + t[..i - 1];
      assert c !in t[..i - 1];
      RemoveFirstCutsFirst(t, c, i - 1);
      assert t[i..] == s[i + 1..];
      assert RemoveFirst(s, c) == [s[0]] + (t[..i - 1] + t[i..]);
    }
  }

  /** `r` is `s` with some characters deleted: the characters of `r` appear in `s` in the same order. */
  predicate Subsequence(r: string, s: string)
    decreases |s|
  {
    if r == [] then true
    else if s == [] then false
    else (r[0] == s[0] && Subsequence(r[1..], s[1..])) || Subsequence(r, s[1..])
  }

  lemma {:induction false} SubsequenceReflexive(s: string)
    ensures Subsequence(s, s)
  {
    if s != [] {
      SubsequenceReflexive(s[1..]);
    }
  }

  /** Deleting from a string that was obtained by deleting is deleting. */
  lemma {:induction false} SubsequenceTransitive(a: string, b: string, c: string)
    requires Subsequence(a, b) && Subsequence(b, c)
    ensures Subsequence(a, c)
    decreases |c|
  {
    if a != [] {
      if Subsequence(b, c[1..]) {
        SubsequenceTransitive(a, b, c[1..]);
      } else {
        assert b[0] == c[0] && Subsequence(b[1..], c[1..]);
        if a[0] == b[0] && Subsequence(a[1..], b[1..]) {
          SubsequenceTransitive(a[1..], b[1..], c[1..]);
        } else {
          SubsequenceTransitive(a, b[1..], c[1..]);
        }
      }
    }
  }

  /** `RemoveFirst` only deletes: the characters it keeps stay in their order. */
  lemma {:induction false} RemoveFirstSubsequence(s: string, c: char)
    ensures Subsequence(RemoveFirst(s, c), s)
  {
    if s != [] {
      if s[0] == c {
        SubsequenceReflexive(s[1..]);
        if s[1..] != [] {
          assert Subsequence(s[1..], s);
        }
      } else {
        var r := RemoveFirst(s, c);
        RemoveFirstSubsequence(s[1..], c);
        assert r[0] == s[0] && r[1..] == RemoveFirst(s[1..], c);
      }
    }
  }

  /** The part before the first space of `head + " " + tail` is `head` when `head` has no space. */
  lemma SplitAtFirstSpace(head: string, tail: string)
    requires ' ' !in head
    ensures Split(head + " " + tail, " ")[0] == head
  {
    var s := head + " " + tail;
    assert OccursAt(s, " ", |head|) by {
      assert s[|head|..|head| + 1] == " ";
    }
    forall j | 0 <= j < |head|
      ensures !OccursAt(s, " ", j)
    {
      OccursAtChar(s, ' ', j);
      assert s[j] == head[j];
    }
    var i := IndexOf(s, " ").value;
    assert i == |head|;
    assert s[..i] == head;
  }

  /** The characters `String.prototype.trim` removes: white space and line terminators. */
  predicate IsJsWhitespace(c: char) {
    c in {'\t', '\n', '\U{000B}', '\U{000C}', '\r', ' ', '\U{00A0}', '\U{1680}',
          '\U{2028}', '\U{2029}', '\U{202F}', '\U{205F}', '\U{3000}', '\U{FEFF}'}
    || '\U{2000}' <= c <= '\U{200A}'
  }

  /** Drops leading white space: the result is a suffix of `s` and all that was dropped is white space. */
  function TrimStart(s: string): (r: string)
    ensures |r| <= |s| && r == s[|s| - |r|..]
    ensures forall k :: 0 <= k < |s| - |r| ==> IsJsWhitespace(s[k])
    ensures r == [] || !IsJsWhitespace(r[0])
    decreases |s|
  {
    if |s| > 0 && IsJsWhitespace(s[0]) then TrimStart(s[1..]) else s
  }

  /** Drops trailing white space: the result is a prefix of `s` and all that was dropped is white space. */
  function TrimEnd(s: string): (r: string)
    ensures |r| <= |s| && r == s[..|r|]
    ensures forall k :: |r| <= k < |s| ==> IsJsWhitespace(s[k])
    ensures r == [] || !IsJsWhitespace(r[|r| - 1])
    decreases |s|
  {
    if |s| > 0 && IsJsWhitespace(s[|s| - 1]) then TrimEnd(s[..|s| - 1]) else s
  }

  /** `r` stands at index `i` of `s`, and everything of `s` before and after it is white space. */
  predicate PaddedAt(s: string, r: string, i: int) {
    && 0 <= i && i + |r| <= |s| && r == s[i..i + |r|]
    && (forall k :: 0 <= k < i ==> IsJsWhitespace(s[k]))
    && (forall k :: i + |r| <= k < |s| ==> IsJsWhitespace(s[k]))
  }

  /**
   * `String.prototype.trim`: neither end of the result is white space, every
   * character of the result comes from `s`, and every character of `s` that is
   * not white space is kept. `TrimIsPaddedSlice` adds that the result is a
   * contiguous slice of `s` with only white space around it.
   */
  function Trim(s: string): (r: string)
    ensures r == [] || (!IsJsWhitespace(r[0]) && !IsJsWhitespace(r[|r| - 1]))
    ensures forall c :: c in r ==> c in s
    ensures forall k :: 0 <= k < |s| && !IsJsWhitespace(s[k]) ==> s[k] in r
  {
    var e := TrimEnd(s);
    var r := TrimStart(e);
    TrimKeepsCharacters(s, e, r);
    r
  }

  /** The trimmed string is the slice of `s` that only white space surrounds. */
  lemma TrimIsPaddedSlice(s: string)
    ensures exists i :: PaddedAt(s, Trim(s), i)
  {
    var e := TrimEnd(s);
    var r := TrimStart(e);
    TrimKeepsCharacters(s, e, r);
    assert Trim(s) == r;
    assert PaddedAt(s, Trim(s), |e| - |r|);
  }

  /** `r` is `s` with a white-space prefix and suffix cut off, so it keeps what is not white space. */
  lemma TrimKeepsCharacters(s: string, e: string, r: string)
    requires |e| <= |s| && e == s[..|e|] && forall k :: |e| <= k < |s| ==> IsJsWhitespace(s[k])
    requires |r| <= |e| && r == e[|e| - |r|..] && forall k :: 0 <= k < |e| - |r| ==> IsJsWhitespace(e[k])
    ensures PaddedAt(s, r, |e| - |r|)
    ensures forall c :: c in r ==> c in s
    ensures forall k :: 0 <= k < |s| && !IsJsWhitespace(s[k]) ==> s[k] in r
  {
    var d := |e| - |r|;
    assert r == s[d..|e|];
    forall k | 0 <= k < d
      ensures IsJsWhitespace(s[k])
    {
      assert e[k] == s[k];
    }
    forall k | 0 <= k < |s| && !IsJsWhitespace(s[k])
      ensures s[k] in r
    {
      assert k < |e|;
      assert e[k] == s[k];
      assert d <= k;
      assert r[k - d] == s[k];
    }
  }

  /** A string with no white space at either end is its own trim. */
  lemma TrimUnpadded(s: string)
    requires s == [] || (!IsJsWhitespace(s[0]) && !IsJsWhitespace(s[|s| - 1]))
    ensures Trim(s) == s
  {
  }

  /** The decimal digit character for `d`. */
  function DigitChar(d: nat): (c: char)
    requires d < 10
    ensures '0' <= c <= '9' && c as int - '0' as int == d
  {
    ('0' as int + d) as char
  }

  predicate IsDigits(s: string) {
    forall k :: 0 <= k < |s| ==> '0' <= s[k] <= '9'
  }

  /** The number a string of decimal digits denotes (most significant digit first). */
  function DigitsValue(s: string): nat
    requires IsDigits(s)
  {
    if s == [] then 0
    else DigitsValue(s[..|s| - 1]) * 10 + (s[|s| - 1] as int - '0' as int)
  }

  /** Decimal rendering of a natural number: at least one digit, no leading zero. */
  function NatToString(n: nat): (s: string)
    ensures |s| > 0 && IsDigits(s)
    ensures |s| > 1 ==> s[0] != '0'
  {
    if n < 10 then [DigitChar(n)] else NatToString(n / 10) + [DigitChar(n % 10)]
  }

  /** Reading back the digits of `NatToString(n)` gives `n`. */
  lemma {:induction false} NatToStringRoundTrip(n: nat)
    ensures DigitsValue(NatToString(n)) == n
  {
    if n >= 10 {
      var s := NatToString(n);
      var p := NatToString(n / 10);
      assert s[..|s| - 1] == p;
      NatToStringRoundTrip(n / 10);
    }
  }

  /** How JavaScript renders an integer-valued number in a template literal. */
  function IntToString(i: int): (s: string)
    ensures |s| > 0 && ' ' !in s && 'n' !in s && 'N' !in s
    ensures s[0] == '-' <==> i < 0
  {
    if i < 0 then "-" + NatToString(-i) else NatToString(i)
  }

  /** Reads an optionally signed decimal integer; the partner of `IntToString`. */
  function ParseInt(s: string): Option<int> {
    if |s| > 1 && s[0] == '-' && IsDigits(s[1..]) then Some(-(DigitsValue(s[1..]) as int))
    else if |s| > 0 && IsDigits(s) then Some(DigitsValue(s))
    else None
  }

  /** The rendered integer reads back as the same integer. */
  lemma IntToStringRoundTrip(i: int)
    ensures ParseInt(IntToString(i)) == Some(i)
  {
    var s := IntToString(i);
    if i < 0 {
      var d := NatToString(-i);
      assert s == "-" + d;
      assert s[1..] == d;
      NatToStringRoundTrip(-i);
      assert ParseInt(s) == Some(-(DigitsValue(d) as int));
    } else {
      var d := NatToString(i);
      assert s == d;
      assert '0' <= s[0] <= '9';
      NatToStringRoundTrip(i);
      assert ParseInt(s) == Some(DigitsValue(d) as int);
    }
  }
}
