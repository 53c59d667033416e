/** The few JavaScript string operations the application relies on: the `\s`
    character class, `String.prototype.trim`, `split` and `join` on one
    character, `indexOf`/`includes` on a substring, `replace` of the first
    occurrence, `slice`, and the decimal rendering of a status code. */
module JsString {
  import opened JsValue

  /** The characters `\s` matches and `trim` strips: ECMAScript WhiteSpace
      (tab, vertical tab, form feed, space, no-break space, byte order mark and
      every other Space_Separator) and LineTerminator (LF, CR, LS, PS). */
  predicate IsSpace(c: char)
    ensures IsSpace(c) ==> c == ' ' || c < ' ' || c > '~'
    ensures c == ' ' || c == '\t' || c == '\n' || c == '\r' ==> IsSpace(c)
  {
    || c == '\t' || c == '\n' || c == '\U{B}' || c == '\U{C}' || c == '\r'
    || c == ' ' || c == '\U{A0}' || c == '\U{1680}'
    || ('\U{2000}' <= c <= '\U{200A}')
    || c == '\U{2028}' || c == '\U{2029}' || c == '\U{202F}' || c == '\U{205F}'
    || c == '\U{3000}' || c == '\U{FEFF}'
  }

  predicate AllSpace(s: string) {
    forall i :: 0 <= i < |s| ==> IsSpace(s[i])
  }

  /** Neither end of `s` is a space (vacuously true of ""). */
  predicate Unpadded(s: string) {
    s == [] || (!IsSpace(s[0]) && !IsSpace(s[|s| - 1]))
  }

  /** Where the run of spaces starting at `i` ends: the first non-space at
      or after `i`, or the end of `s`. */
  function SkipSpaces(s: string, i: nat): (n: nat)
    requires i <= |s|
    ensures i <= n <= |s|
    ensures forall k :: i <= k < n ==> IsSpace(s[k])
    ensures n < |s| ==> !IsSpace(s[n])
    decreases |s| - i
  {
    if i == |s| || !IsSpace(s[i]) then i else SkipSpaces(s, i + 1)
  }

  /** Where the run of spaces ending at `j` starts, looking no lower than
      `lo`: just after the last non-space before `j`, or `lo`. */
  function SkipSpacesBack(s: string, lo: nat, j: nat): (n: nat)
    requires lo <= j <= |s|
    ensures lo <= n <= j
    ensures forall k :: n <= k < j ==> IsSpace(s[k])
    ensures lo < n ==> !IsSpace(s[n - 1])
    decreases j
  {
    if j == lo || !IsSpace(s[j - 1]) then j else SkipSpacesBack(s, lo, j - 1)
  }

  /** `String.prototype.trim`: the text between the leading and the trailing
      run of spaces. */
  function Trim(s: string): (r: string)
    ensures |r| <= |s| && Unpadded(r)
  {
    var a := SkipSpaces(s, 0);
    s[a..SkipSpacesBack(s, a, |s|)]
  }

  /** `s` is its trim framed by two runs of spaces. */
  lemma TrimFrame(s: string)
    ensures var r := Trim(s);
            var i := SkipSpaces(s, 0);
            i + |r| <= |s| && s[i..i + |r|] == r && AllSpace(s[..i]) && AllSpace(s[i + |r|..])
  {
  }

  /** The characterisation of `Trim` determines it: whatever is framed by
      spaces and is unpadded is the trim. */
  lemma TrimOfFramed(a: string, r: string, b: string)
    requires AllSpace(a) && AllSpace(b) && Unpadded(r)
    ensures Trim(a + r + b) == r
  {
    var s := a + r + b;
    assert forall k :: 0 <= k < |a| ==> s[k] == a[k];
    assert forall k :: 0 <= k < |r| ==> s[|a| + k] == r[k];
    assert forall k :: 0 <= k < |b| ==> s[|a| + |r| + k] == b[k];
    var i := SkipSpaces(s, 0);
    if r == [] {
      assert i == |s|;
    } else {
      assert i == |a|;
      assert SkipSpacesBack(s, i, |s|) == |a| + |r|;
    }
    assert s[|a|..|a| + |r|] == r;
  }

  /** `s.trim()` is falsy exactly when `s` is made of spaces only. */
  lemma TrimEmptyIffAllSpace(s: string)
    ensures Trim(s) == [] <==> AllSpace(s)
  {
    var i := SkipSpaces(s, 0);
    if i < |s| {
      assert SkipSpacesBack(s, i, |s|) > i;
    }
  }

  /** Trimming twice is trimming once. */
  lemma TrimIdempotent(s: string)
    ensures Trim(Trim(s)) == Trim(s)
  {
    var r := Trim(s);
    var none: string := [];
    assert none + r + none == r;
    TrimOfFramed(none, r, none);
  }

  // ---------------------------------------------------------------- searching

  /** `pat` occurs in `s` starting at index `i`. */
  predicate OccursAt(s: string, pat: string, i: int) {
    0 <= i && i + |pat| <= |s| && s[i..i + |pat|] == pat
  }

  lemma OccursAtChar(s: string, pat: string, i: int, j: nat)
    requires OccursAt(s, pat, i) && j < |pat|
    ensures s[i + j] == pat[j]
  {
    assert s[i..i + |pat|][j] == pat[j];
  }

  /** `pat` occurs nowhere in `s`. */
  ghost predicate Absent(s: string, pat: string) {
    forall k :: !OccursAt(s, pat, k)
  }

  /** `s.indexOf(pat, from)` for `from <= |s|`: the first occurrence at or
      after `from`, or `None` for the source's -1. */
  function IndexOf(s: string, pat: string, from: nat): (r: Option<nat>)
    ensures r.Some? ==> from <= r.value && OccursAt(s, pat, r.value)
    ensures r.Some? ==> forall k :: from <= k < r.value ==> !OccursAt(s, pat, k)
    ensures r.None? ==> forall k :: from <= k ==> !OccursAt(s, pat, k)
    decreases |s| - from
  {
    if from + |pat| > |s| then None
    else if s[from..from + |pat|] == pat then Some(from)
    else IndexOf(s, pat, from + 1)
  }

  /** `s.includes(pat)`. */
  predicate Includes(s: string, pat: string)
    ensures Includes(s, pat) ==> |pat| <= |s|
  {
    IndexOf(s, pat, 0).Some?
  }

  lemma IncludesIffOccurs(s: string, pat: string)
    ensures Includes(s, pat) <==> exists k :: OccursAt(s, pat, k)
  {
    var r := IndexOf(s, pat, 0);
    if r.None? {
      assert forall k :: !OccursAt(s, pat, k) by {
        forall k ensures !OccursAt(s, pat, k) {
          if 0 <= k { assert 0 <= k; }
        }
      }
    }
  }

  /** A substring of a string that avoids `pat` avoids it too. */
  lemma AbsentInSlice(s: string, pat: string, i: nat, j: nat)
    requires i <= j <= |s|
    requires forall k :: i <= k && k + |pat| <= j ==> !OccursAt(s, pat, k)
    ensures Absent(s[i..j], pat)
  {
    forall k | OccursAt(s[i..j], pat, k)
      ensures false
    {
      assert i + k + |pat| <= j;
      forall m | 0 <= m < |pat| ensures s[i + k + m] == pat[m] {
        assert s[i..j][k..k + |pat|][m] == pat[m];
      }
      assert s[i + k..i + k + |pat|] == pat;
      assert OccursAt(s, pat, i + k);
    }
  }

  /** `s.replace(pat, rep)` with a string pattern and a replacement holding no
      `$` pattern: the first occurrence is replaced, if there is one. */
  function ReplaceFirst(s: string, pat: string, rep: string): (r: string)
    ensures IndexOf(s, pat, 0).None? ==> r == s
    ensures IndexOf(s, pat, 0).Some? ==>
              var i := IndexOf(s, pat, 0).value;
              |r| == |s| - |pat| + |rep| && r[..i] == s[..i] && r[i..i + |rep|] == rep && r[i + |rep|..] == s[i + |pat|..]
  {
    match IndexOf(s, pat, 0)
    case None => s
    case Some(i) =>
      var r := s[..i] + rep + s[i + |pat|..];
      assert r[..i] == s[..i] && r[i..i + |rep|] == rep;
      r
  }

  /** Trimming a string that avoids `pat` leaves a string that avoids it. */
  lemma TrimAvoids(s: string, pat: string)
    requires Absent(s, pat)
    ensures Absent(Trim(s), pat)
  {
    var i := SkipSpaces(s, 0);
    AbsentInSlice(s, pat, i, SkipSpacesBack(s, i, |s|));
  }

  /** A pattern whose second character is not in `pre` and differs from its
      first is found right after `pre`. */
  lemma FirstOccurrenceAfterPrefix(pre: string, pat: string, post: string)
    requires |pat| >= 2 && pat[1] !in pre && pat[0] != pat[1]
    ensures IndexOf(pre + pat + post, pat, 0) == Some(|pre|)
  {
    var s := pre + pat + post;
    assert s[|pre|..|pre| + |pat|] == pat;
    assert OccursAt(s, pat, |pre|);
    OccursAtChar(s, pat, |pre|, 0);
    assert forall j :: 0 <= j < |pre| ==> s[j] == pre[j];

  }

  /** A string that lacks the first character of `pat` lacks `pat`. */
  lemma AbsentByFirstChar(s: string, pat: string)
    requires pat != [] && pat[0] !in s
    ensures Absent(s, pat)
  {
    forall k | OccursAt(s, pat, k) ensures false {
      OccursAtChar(s, pat, k, 0);
    }
  }

  /** `indexOf` finds an occurrence that nothing earlier (from `from` on)
      precedes. */
  lemma IndexOfFirst(s: string, pat: string, from: nat, i: nat)
    requires from <= i && OccursAt(s, pat, i)
    requires forall k :: from <= k < i ==> !OccursAt(s, pat, k)
    ensures IndexOf(s, pat, from) == Some(i)
  {
  }

  /** No proper suffix of `m` begins like `m`: an occurrence of `m` cannot
      start inside another one or straddle into one. */
  predicate Unbordered(m: string) {
    |m| > 0 && forall d :: 0 < d < |m| ==> m[d] != m[0]
  }

  /** An occurrence inside `x + y` lies in `x`, in `y`, or straddles the
      junction; for an unbordered `m` and a `y` that starts like `m`, the
      last case is impossible. */
  lemma AbsentConcat(x: string, y: string, m: string)
    requires Unbordered(m) && Absent(x, m) && Absent(y, m)
    requires y != [] ==> y[0] == m[0]
    ensures Absent(x + y, m)
  {
    var s := x + y;
    forall k | 0 <= k && k + |m| <= |x| ensures !OccursAt(s, m, k) {
      assert s[k..k + |m|] == x[k..k + |m|];
      assert !OccursAt(x, m, k);
    }
    forall k | |x| <= k && k + |m| <= |s| ensures !OccursAt(s, m, k) {
      assert s[k..k + |m|] == y[k - |x|..k - |x| + |m|];
      assert !OccursAt(y, m, k - |x|);
    }
    forall k | 0 <= k < |x| < k + |m| && OccursAt(s, m, k) ensures false {
      OccursAtChar(s, m, k, |x| - k);
    }
  }

  /** Behind a prefix `x`, an unbordered pattern that `pre` does not contain
      is first found right after `pre`. */
  lemma FirstOccurrenceAfter(x: string, pre: string, pat: string, rest: string)
    requires Unbordered(pat) && Absent(pre, pat)
    ensures IndexOf(x + pre + pat + rest, pat, |x|) == Some(|x| + |pre|)
  {
    var s := x + pre + pat + rest;
    var p := |x| + |pre|;
    assert s[p..p + |pat|] == pat;
    assert OccursAt(s, pat, p);
    forall k | |x| <= k && k + |pat| <= p ensures !OccursAt(s, pat, k) {
      assert s[k..k + |pat|] == pre[k - |x|..k - |x| + |pat|];
      assert !OccursAt(pre, pat, k - |x|);
    }
    forall k | |x| <= k < p < k + |pat| && OccursAt(s, pat, k) ensures false {
      OccursAtChar(s, pat, k, p - k);
    }
  }

  /** `s.slice(0, n)` for `n >= 0`. */
  function SliceTo(s: string, n: nat): (r: string)
    ensures |r| == if |s| < n then |s| else n
    ensures r == s[..|r|]
  {
    if |s| <= n then s else s[..n]
  }

  // ------------------------------------------------------- split and join

  /** `s.split(sep)` for a one-character separator: the pieces between the
      separators, one more piece than there are separators. */
  function Split(s: string, sep: char): (r: seq<string>)
    ensures |r| >= 1
    ensures forall i :: 0 <= i < |r| ==> sep !in r[i]
  {
    if s == [] then [""]
    else
      var rest := Split(s[1..], sep);
      if s[0] == sep then [""] + rest
      else [[s[0]] + rest[0]] + rest[1..]
  }

  /** `xs.join(sep)` for a one-character separator. */
  function Join(xs: seq<string>, sep: char): (r: string)
    ensures xs == [] ==> r == ""
    ensures |xs| == 1 ==> r == xs[0]
    ensures xs != [] ==> |r| >= |xs[0]| && r[..|xs[0]|] == xs[0]
    ensures |xs| > 1 ==> |r| > |xs[0]| && r[|xs[0]|] == sep
  {
    if xs == [] then ""
    else if |xs| == 1 then xs[0]
    else xs[0] + [sep] + Join(xs[1..], sep)
  }

  /** Joining the pieces gives back the string. */
  lemma {:induction false} JoinSplit(s: string, sep: char)
    ensures Join(Split(s, sep), sep) == s
  {
    if s != [] {
      var rest := Split(s[1..], sep);
      JoinSplit(s[1..], sep);
      if s[0] == sep {
        assert Split(s, sep)[1..] == rest;
        assert s == [sep] + s[1..];
      } else {
        var r := Split(s, sep);
        assert r[0] == [s[0]] + rest[0];
        if |rest| == 1 {
          assert s == [s[0]] + rest[0];
        } else {
          assert r[1..] == rest[1..];
          assert Join(rest, sep) == rest[0] + [sep] + Join(rest[1..], sep);
          assert s == [s[0]] + s[1..];
        }
      }
    }
  }

  /** Splitting a join of separator-free pieces gives back the pieces. */
  lemma {:induction false} SplitJoin(xs: seq<string>, sep: char)
    requires |xs| >= 1
    requires forall i :: 0 <= i < |xs| ==> sep !in xs[i]
    ensures Split(Join(xs, sep), sep) == xs
    decreases |xs|, |xs[0]|
  {
    var x := xs[0];
    if x == [] {
      if |xs| > 1 {
        assert Join(xs, sep) == [sep] + Join(xs[1..], sep);
        SplitJoin(xs[1..], sep);
        assert ([sep] + Join(xs[1..], sep))[1..] == Join(xs[1..], sep);
        assert xs == [""] + xs[1..];
      }
    } else {
      var ys := [x[1..]] + xs[1..];
      assert sep !in x[1..] by {
        assert forall c :: c in x[1..] ==> c in x;
      }
      SplitJoin(ys, sep);
      assert ys[1..] == xs[1..];
      if |xs| > 1 {
        assert Join(xs, sep) == [x[0]] + Join(ys, sep);
      } else {
        assert Join(xs, sep) == [x[0]] + Join(ys, sep);
      }
      assert ([x[0]] + Join(ys, sep))[1..] == Join(ys, sep);
      assert [x[0]] + x[1..] == x;
    }
  }

  // ---------------------------------------------------------------- numbers

  function DigitChar(d: nat): (c: char)
    requires d < 10
    ensures '0' <= c <= '9'
  {
    "0123456789"[d]
  }

  function DigitValue(c: char): nat
    requires '0' <= c <= '9'
  {
    (c as int - '0' as int) as nat
  }

  /** The decimal rendering `${n}` of a non-negative integer. */
  function Decimal(n: nat): (r: string)
    ensures r != [] && forall i :: 0 <= i < |r| ==> '0' <= r[i] <= '9'
    ensures r[0] == '0' ==> n == 0
  {
    if n < 10 then [DigitChar(n)] else Decimal(n / 10) + [DigitChar(n % 10)]
  }

  /** Reads a string of decimal digits back as a number. */
  function ParseDecimal(s: string): nat
    requires forall i :: 0 <= i < |s| ==> '0' <= s[i] <= '9'
  {
    if s == [] then 0 else ParseDecimal(s[..|s| - 1]) * 10 + DigitValue(s[|s| - 1])
  }

  /** The rendering is faithful: reading it back gives the number. */
  lemma {:induction false} DecimalRoundTrip(n: nat)
    ensures ParseDecimal(Decimal(n)) == n
  {
    if n >= 10 {
      DecimalRoundTrip(n / 10);
      var r := Decimal(n);
      assert r[..|r| - 1] == Decimal(n / 10);
    }
  }

  /** Two numbers with the same rendering are equal. */
  lemma DecimalInjective(m: nat, n: nat)
    requires Decimal(m) == Decimal(n)
    ensures m == n
  {
    DecimalRoundTrip(m);
    DecimalRoundTrip(n);
  }
}
