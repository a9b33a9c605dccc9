/** The Python string operations parse_option and set_model use: `str.split` on a
    one-character separator, `int()` on a decimal literal, `str()` of an int, and
    `str.replace(pat, "")`. */
module Strings {
  import opened Runtime

  // ---------------------------------------------------------------------------
  // Characters

  predicate IsDigit(c: char) { '0' <= c <= '9' }

  /** The characters int() skips around a literal: the ASCII space and '\t' through
      '\r', and the non-ASCII characters str.isspace() accepts. The ASCII separators
      U+001C to U+001F count as white space for str.isspace() but not for int(). */
  predicate IsSpace(c: char) {
    c == ' ' || ('\t' <= c <= '\r') ||
    c == '\U{85}' || c == '\U{A0}' || c == '\U{1680}' || ('\U{2000}' <= c <= '\U{200A}') ||
    c == '\U{2028}' || c == '\U{2029}' || c == '\U{202F}' || c == '\U{205F}' || c == '\U{3000}'
  }

  function DigitValue(c: char): nat
    requires IsDigit(c)
  {
    c as int - '0' as int
  }

  function DigitChar(d: nat): (c: char)
    requires d < 10
    ensures IsDigit(c) && DigitValue(c) == d
  {
    ('0' as int + d) as char
  }

  // ---------------------------------------------------------------------------
  // str(n)

  /** The decimal digits of n, most significant first, without leading zeros. */
  function NatToString(n: nat): (s: string)
    ensures |s| > 0
    ensures forall i :: 0 <= i < |s| ==> IsDigit(s[i])
    ensures |s| > 1 ==> s[0] != '0'
    decreases n
  {
    if n < 10 then [DigitChar(n)] else NatToString(n / 10) + [DigitChar(n % 10)]
  }

  /** Python's str(n) for an int: a minus sign for negative numbers, then the digits. */
  function IntToString(n: int): (s: string)
    ensures |s| > 0
    ensures forall i :: 0 <= i < |s| ==> IsDigit(s[i]) || (i == 0 && n < 0 && s[i] == '-')
    ensures IsDigit(s[|s| - 1])
    ensures s[0] == '-' <==> n < 0
  {
    if n < 0 then "-" + NatToString(-n) else NatToString(n)
  }

  // ---------------------------------------------------------------------------
  // int(s)

  function TrimStart(s: string): (t: string)
    ensures |t| <= |s|
  {
    if |s| > 0 && IsSpace(s[0]) then TrimStart(s[1..]) else s
  }

  function TrimEnd(s: string): (t: string)
    ensures |t| <= |s|
  {
    if |s| > 0 && IsSpace(s[|s| - 1]) then TrimEnd(s[..|s| - 1]) else s
  }

  /** s.strip(): s without its leading and trailing white space. */
  function Strip(s: string): string {
    TrimEnd(TrimStart(s))
  }

  /** A digit string as int() accepts it: digits, with single underscores allowed
      between two digits. */
  predicate IsDigitRun(d: string) {
    && |d| > 0
    && IsDigit(d[0])
    && IsDigit(d[|d| - 1])
    && (forall i :: 0 <= i < |d| ==> IsDigit(d[i]) || d[i] == '_')
    && (forall i :: 0 <= i < |d| - 1 && d[i] == '_' ==> d[i + 1] != '_')
  }

  /** The number a digit run denotes; underscores are skipped. */
  function DigitsValue(d: string): nat {
    if d == [] then 0
    else if IsDigit(d[|d| - 1]) then DigitsValue(d[..|d| - 1]) * 10 + DigitValue(d[|d| - 1])
    else DigitsValue(d[..|d| - 1])
  }

  /** Python's int(s) for a string in base 10: None where int() raises ValueError. */
  function ParseInt(s: string): (r: Option<int>)
    ensures r.Some? ==> |Strip(s)| > 0 && IsDigit(Strip(s)[|Strip(s)| - 1])
    ensures r.Some? && r.value < 0 ==> Strip(s)[0] == '-'
  {
    var t := Strip(s);
    if |t| > 0 && (t[0] == '+' || t[0] == '-') then
      if IsDigitRun(t[1..]) then
        var v: int := DigitsValue(t[1..]);
        Some(if t[0] == '-' then -v else v)
      else None
    else if IsDigitRun(t) then Some(DigitsValue(t))
    else None
  }

  lemma {:induction false} DigitsValueOfNat(n: nat)
    ensures DigitsValue(NatToString(n)) == n
    decreases n
  {
    var s := NatToString(n);
    if n >= 10 {
      DigitsValueOfNat(n / 10);
      assert s[..|s| - 1] == NatToString(n / 10);
    }
  }

  lemma DigitRunOfNat(n: nat)
    ensures IsDigitRun(NatToString(n))
  {
  }

  /** Strip leaves a string alone when neither end is white space. */
  lemma StripUnpadded(s: string)
    requires |s| > 0 && !IsSpace(s[0]) && !IsSpace(s[|s| - 1])
    ensures Strip(s) == s
  {
    assert TrimStart(s) == s;
  }

  /** int(str(n)) == n: printing an int and reading it back gives the int. */
  lemma ParseIntRoundTrip(n: int)
    ensures ParseInt(IntToString(n)) == Some(n)
  {
    var s := IntToString(n);
    StripUnpadded(s);
    if n < 0 {
      var m: nat := -n;
      assert s[1..] == NatToString(m);
      DigitRunOfNat(m);
      DigitsValueOfNat(m);
    } else {
      DigitRunOfNat(n);
      DigitsValueOfNat(n);
    }
  }

  /** int() ignores white space around the literal. */
  lemma {:induction false} ParseIntIgnoresSpaces(pre: string, s: string, post: string)
    requires forall i :: 0 <= i < |pre| ==> IsSpace(pre[i])
    requires forall i :: 0 <= i < |post| ==> IsSpace(post[i])
    ensures ParseInt(pre + s + post) == ParseInt(s)
  {
    StripPadding(pre, s, post);
  }

  lemma {:induction false} StripPadding(pre: string, s: string, post: string)
    requires forall i :: 0 <= i < |pre| ==> IsSpace(pre[i])
    requires forall i :: 0 <= i < |post| ==> IsSpace(post[i])
    ensures Strip(pre + s + post) == Strip(s)
  {
    assert pre + s + post == pre + (s + post);
    TrimStartPadding(pre, s + post);
    TrimStartAppend(s, post);
    if TrimStart(s) == [] {
      TrimStartOfSpaces(post);
    } else {
      TrimEndPadding(TrimStart(s), post);
    }
  }

  lemma {:induction false} TrimStartPadding(pre: string, s: string)
    requires forall i :: 0 <= i < |pre| ==> IsSpace(pre[i])
    ensures TrimStart(pre + s) == TrimStart(s)
    decreases |pre|
  {
    if pre != [] {
      assert (pre + s)[0] == pre[0];
      assert (pre + s)[1..] == pre[1..] + s;
      assert forall i :: 0 <= i < |pre| - 1 ==> pre[1..][i] == pre[i + 1];
      TrimStartPadding(pre[1..], s);
    } else {
      assert pre + s == s;
    }
  }

  lemma {:induction false} TrimEndPadding(s: string, post: string)
    requires forall i :: 0 <= i < |post| ==> IsSpace(post[i])
    ensures TrimEnd(s + post) == TrimEnd(s)
    decreases |post|
  {
    if post != [] {
      var n := |post| - 1;
      assert (s + post)[..|s + post| - 1] == s + post[..n];
      TrimEndPadding(s, post[..n]);
    } else {
      assert s + post == s;
    }
  }

  /** TrimStart of a concatenation: either the first part keeps a non-space, or it vanishes. */
  lemma {:induction false} TrimStartAppend(s: string, t: string)
    ensures TrimStart(s) != [] ==> TrimStart(s + t) == TrimStart(s) + t
    ensures TrimStart(s) == [] ==> TrimStart(s + t) == TrimStart(t)
    decreases |s|
  {
    if s == [] {
      assert s + t == t;
    } else if IsSpace(s[0]) {
      assert (s + t)[1..] == s[1..] + t;
      TrimStartAppend(s[1..], t);
    }
  }

  /** A string of white space trims away entirely. */
  lemma {:induction false} TrimStartOfSpaces(s: string)
    requires forall i :: 0 <= i < |s| ==> IsSpace(s[i])
    ensures TrimStart(s) == []
    decreases |s|
  {
    if s != [] {
      assert IsSpace(s[0]);
      assert forall i :: 0 <= i < |s| - 1 ==> s[1..][i] == s[i + 1];
      TrimStartOfSpaces(s[1..]);
    }
  }

  // ---------------------------------------------------------------------------
  // s.split(c) and c.join(fields)

  /** Index of the first c in s, or |s| when there is none. */
  function Find(s: string, c: char): (i: nat)
    ensures i <= |s|
    ensures i < |s| ==> s[i] == c
    ensures forall j :: 0 <= j < i ==> s[j] != c
  {
    if s == [] || s[0] == c then 0 else 1 + Find(s[1..], c)
  }

  /** Python's s.split(c) for a one-character separator: the fields between the
      separators, in order; an empty string gives one empty field. */
  function Split(s: string, c: char): (fields: seq<string>)
    ensures |fields| >= 1
    ensures forall k :: 0 <= k < |fields| ==> c !in fields[k]
    decreases |s|
  {
    var i := Find(s, c);
    if i == |s| then [s] else [s[..i]] + Split(s[i + 1..], c)
  }

  /** c.join(fields). */
  function Join(fields: seq<string>, c: char): string
    requires |fields| >= 1
  {
    if |fields| == 1 then fields[0] else fields[0] + [c] + Join(fields[1..], c)
  }

  /** Joining the fields of a split gives back the string. */
  lemma {:induction false} JoinSplit(s: string, c: char)
    ensures Join(Split(s, c), c) == s
    decreases |s|
  {
    var i := Find(s, c);
    if i < |s| {
      var rest := Split(s[i + 1..], c);
      assert Split(s, c) == [s[..i]] + rest;
      assert (Split(s, c))[1..] == rest;
      JoinSplit(s[i + 1..], c);
      assert Join(Split(s, c), c) == s[..i] + [c] + Join(rest, c);
      assert s == s[..i] + [c] + s[i + 1..];
    }
  }

  /** Splitting joined fields gives back the fields, when no field holds the separator. */
  lemma {:induction false} SplitJoin(fields: seq<string>, c: char)
    requires |fields| >= 1
    requires forall k :: 0 <= k < |fields| ==> c !in fields[k]
    ensures Split(Join(fields, c), c) == fields
    decreases |fields|
  {
    var s := Join(fields, c);
    if |fields| == 1 {
      assert Find(s, c) == |s|;
    } else {
      var f := fields[0];
      assert c !in f;
      assert s == f + [c] + Join(fields[1..], c);
      assert s[|f|] == c;
      assert Find(s, c) == |f|;
      assert s[..|f|] == f;
      assert s[|f| + 1..] == Join(fields[1..], c);
      SplitJoin(fields[1..], c);
    }
  }

  /** There is one more field than there are separators. */
  lemma {:induction false} SplitCount(s: string, c: char)
    ensures |Split(s, c)| == multiset(s)[c] + 1
    decreases |s|
  {
    var i := Find(s, c);
    if i == |s| {
      assert c !in multiset(s);
    } else {
      SplitCount(s[i + 1..], c);
      assert s == s[..i] + [c] + s[i + 1..];
      assert c !in multiset(s[..i]);
      assert multiset(s) == multiset(s[..i]) + multiset{c} + multiset(s[i + 1..]);
    }
  }

  // ---------------------------------------------------------------------------
  // s.replace(pat, "")

  predicate OccursAt(s: string, pat: string, i: int) {
    0 <= i && i + |pat| <= |s| && s[i..i + |pat|] == pat
  }

  predicate Contains(s: string, pat: string) {
    exists i :: 0 <= i <= |s| && OccursAt(s, pat, i)
  }

  /** Python's s.replace(pat, ""): scanning left to right, every non-overlapping
      occurrence of pat is deleted; the text around it is kept in order. */
  function Remove(s: string, pat: string): (r: string)
    requires |pat| > 0
    ensures |r| <= |s|
    decreases |s|
  {
    if |s| < |pat| then s
    else if s[..|pat|] == pat then Remove(s[|pat|..], pat)
    else [s[0]] + Remove(s[1..], pat)
  }

  /** A string is left unchanged exactly when the pattern does not occur in it. */
  lemma RemoveUnchangedIff(s: string, pat: string)
    requires |pat| > 0
    ensures Remove(s, pat) == s <==> !Contains(s, pat)
  {
    if Contains(s, pat) {
      RemoveShrinks(s, pat);
    } else {
      RemoveAbsent(s, pat);
    }
  }

  lemma {:induction false} RemoveAbsent(s: string, pat: string)
    requires |pat| > 0
    requires !Contains(s, pat)
    ensures Remove(s, pat) == s
    decreases |s|
  {
    if |s| >= |pat| {
      assert !OccursAt(s, pat, 0);
      assert !Contains(s[1..], pat) by {
        forall i | OccursAt(s[1..], pat, i) ensures OccursAt(s, pat, i + 1) {
          assert s[1..][i..i + |pat|] == s[i + 1..i + 1 + |pat|];
        }
      }
      RemoveAbsent(s[1..], pat);
    }
  }

  lemma {:induction false} RemoveShrinks(s: string, pat: string)
    requires |pat| > 0
    requires Contains(s, pat)
    ensures |Remove(s, pat)| < |s|
    decreases |s|
  {
    var i :| 0 <= i <= |s| && OccursAt(s, pat, i);
    assert s[0..|pat|] == s[..|pat|];
    if s[..|pat|] != pat {
      assert i > 0;
      assert s[1..][i - 1..i - 1 + |pat|] == s[i..i + |pat|];
      assert OccursAt(s[1..], pat, i - 1);
      RemoveShrinks(s[1..], pat);
    }
  }

  /** Removing from a + pat + b, when pat does not start anywhere inside a, keeps a
      and removes that occurrence. */
  lemma {:induction false} RemoveAfter(a: string, pat: string, b: string)
    requires |pat| > 0
    requires forall i :: 0 <= i < |a| ==> !OccursAt(a + pat + b, pat, i)
    ensures Remove(a + pat + b, pat) == a + Remove(b, pat)
    decreases |a|
  {
    var s := a + pat + b;
    if a == [] {
      assert s == pat + b;
      assert s[..|pat|] == pat;
      assert s[|pat|..] == b;
      assert Remove(s, pat) == Remove(b, pat);
      assert a + Remove(b, pat) == Remove(b, pat);
    } else {
      assert !OccursAt(s, pat, 0);
      assert s[..|pat|] != pat;
      assert Remove(s, pat) == [s[0]] + Remove(s[1..], pat);
      assert s[1..] == a[1..] + pat + b;
      NoOccurrenceInTail(a, pat, b);
      RemoveAfter(a[1..], pat, b);
      assert Remove(s, pat) == [a[0]] + (a[1..] + Remove(b, pat));
      assert [a[0]] + (a[1..] + Remove(b, pat)) == a + Remove(b, pat);
    }
  }

  /** An occurrence free prefix a stays occurrence free after dropping its first character. */
  lemma NoOccurrenceInTail(a: string, pat: string, b: string)
    requires |a| > 0
    requires forall i :: 0 <= i < |a| ==> !OccursAt(a + pat + b, pat, i)
    ensures forall i :: 0 <= i < |a| - 1 ==> !OccursAt(a[1..] + pat + b, pat, i)
  {
    var s := a + pat + b;
    var t := a[1..] + pat + b;
    assert t == s[1..];
    forall i | 0 <= i < |a| - 1 ensures !OccursAt(t, pat, i) {
      assert !OccursAt(s, pat, i + 1);
      if i + |pat| <= |t| {
        assert t[i..i + |pat|] == s[i + 1..i + 1 + |pat|];
      }
    }
  }

  /** When pat's first character does not recur in pat, an occurrence cannot start
      inside a string free of pat and run into a following copy of pat. */
  lemma NoStraddle(a: string, pat: string, b: string)
    requires |pat| > 0
    requires forall d :: 1 <= d < |pat| ==> pat[d] != pat[0]
    requires !Contains(a, pat)
    ensures forall i :: 0 <= i < |a| ==> !OccursAt(a + pat + b, pat, i)
  {
    var s := a + pat + b;
    forall i | 0 <= i < |a| ensures !OccursAt(s, pat, i) {
      if i + |pat| <= |a| {
        assert s[i..i + |pat|] == a[i..i + |pat|];
        assert !OccursAt(a, pat, i);
      } else if i + |pat| <= |s| {
        var d := |a| - i;
        assert s[i..i + |pat|][d] == s[|a|] == pat[0];
        assert pat[d] != pat[0];
      }
    }
  }

  /** s.replace(pat, "") on a + pat + b, with pat absent from a and b, is a + b. */
  lemma RemoveInfix(a: string, pat: string, b: string)
    requires |pat| > 0
    requires forall d :: 1 <= d < |pat| ==> pat[d] != pat[0]
    requires !Contains(a, pat) && !Contains(b, pat)
    ensures Remove(a + pat + b, pat) == a + b
  {
    NoStraddle(a, pat, b);
    RemoveAfter(a, pat, b);
    RemoveAbsent(b, pat);
  }
}
