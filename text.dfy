/// Python `str` operations the pipeline relies on, written out over
/// `seq<char>`: `p in s`, `s.startswith(p)`, `s.replace(p, q)`, `s.strip()`,
/// `s.split(sep)` and `str(n)` for a non-negative `n`.
module Text {

  /** Python's `c.isspace()`: the code points that `str.strip()` with no
      argument removes. */
  predicate IsSpace(c: char) {
    var n := c as int;
    n == 0x20 || 0x09 <= n <= 0x0D || 0x1C <= n <= 0x1F || n == 0x85 || n == 0xA0
    || n == 0x1680 || 0x2000 <= n <= 0x200A || n == 0x2028 || n == 0x2029
    || n == 0x202F || n == 0x205F || n == 0x3000
  }

  /** Python's `s.startswith(p)`. */
  predicate StartsWith(s: string, p: string) {
    |p| <= |s| && s[..|p|] == p
  }

  /** `p` occurs in `s` starting at index `i`. */
  predicate OccursAt(s: string, p: string, i: int) {
    0 <= i && i + |p| <= |s| && s[i..i + |p|] == p
  }

  /** Python's `p in s`, as a left-to-right search. */
  predicate Contains(s: string, p: string)
    decreases |s|
  {
    StartsWith(s, p) || (s != [] && Contains(s[1..], p))
  }

  /** The search agrees with "`p` occurs at some index of `s`". */
  lemma {:induction false} ContainsIffOccurs(s: string, p: string)
    ensures Contains(s, p) <==> exists i :: OccursAt(s, p, i)
  {
    if StartsWith(s, p) {
      assert OccursAt(s, p, 0);
    } else if s != [] {
      ContainsIffOccurs(s[1..], p);
      if i :| OccursAt(s, p, i) {
        assert i != 0;
        assert s[1..][i - 1..i - 1 + |p|] == s[i..i + |p|];
        assert OccursAt(s[1..], p, i - 1);
      }
      if i :| OccursAt(s[1..], p, i) {
        assert s[1..][i..i + |p|] == s[i + 1..i + 1 + |p|];
        assert OccursAt(s, p, i + 1);
      }
    } else {
      assert forall i :: !OccursAt(s, p, i);
    }
  }

  /** A pattern holding a character that `s` lacks cannot occur in `s`. */
  lemma {:induction false} AbsentCharNotContained(s: string, p: string, c: char)
    requires c in p && c !in s
    ensures !Contains(s, p)
  {
    var k :| 0 <= k < |p| && p[k] == c;
    assert !StartsWith(s, p) by {
      if |p| <= |s| {
        assert s[k] in s;
        assert s[..|p|][k] == s[k];
      }
    }
    if s != [] {
      AbsentCharNotContained(s[1..], p, c);
    }
  }

  /** Python's `s.replace(pat, rep)` for a non-empty `pat`: every
      non-overlapping occurrence, found left to right, is replaced. */
  function Replace(s: string, pat: string, rep: string): (r: string)
    requires pat != []
    ensures !Contains(s, pat) ==> r == s
    ensures |rep| <= |pat| ==> |r| <= |s|
    decreases |s|
  {
    if s == [] then []
    else if StartsWith(s, pat) then rep + Replace(s[|pat|..], pat, rep)
    else [s[0]] + Replace(s[1..], pat, rep)
  }

  /** No occurrence of `pat` in `s` starts before index `n`. */
  predicate NoOccurrenceBefore(s: string, pat: string, n: int) {
    forall i :: 0 <= i < n ==> !OccursAt(s, pat, i)
  }

  /** When no character of `a` is the first one of `pat`, no occurrence of
      `pat` starts inside `a`. */
  lemma FirstCharAbsentClear(a: string, rest: string, pat: string)
    requires pat != [] && pat[0] !in a
    ensures NoOccurrenceBefore(a + rest, pat, |a|)
  {
    forall i | 0 <= i < |a| ensures !OccursAt(a + rest, pat, i) {
      assert (a + rest)[i] == a[i];
    }
  }

  /** Text inside which no occurrence starts is copied unchanged. */
  lemma {:induction false} ReplaceSkipsClear(a: string, b: string, pat: string, rep: string)
    requires pat != [] && NoOccurrenceBefore(a + b, pat, |a|)
    ensures Replace(a + b, pat, rep) == a + Replace(b, pat, rep)
  {
    if a != [] {
      var s := a + b;
      assert !StartsWith(s, pat) by {
        assert !OccursAt(s, pat, 0);
        assert |pat| <= |s| ==> s[..|pat|] == s[0..|pat|];
      }
      assert s[1..] == a[1..] + b;
      forall i | 0 <= i < |a| - 1 ensures !OccursAt(a[1..] + b, pat, i) {
        assert !OccursAt(s, pat, i + 1);
        assert i + |pat| <= |s| - 1 ==> (a[1..] + b)[i..i + |pat|] == s[i + 1..i + 1 + |pat|];
      }
      ReplaceSkipsClear(a[1..], b, pat, rep);
      calc {
        Replace(s, pat, rep);
        [a[0]] + Replace(a[1..] + b, pat, rep);
        [a[0]] + (a[1..] + Replace(b, pat, rep));
        { assert [a[0]] + a[1..] == a; }
        a + Replace(b, pat, rep);
      }
    } else {
      assert a + b == b;
    }
  }

  /** The first occurrence is replaced and the scan carries on after it,
      when no earlier occurrence starts inside `a`. */
  lemma ReplaceFirstOccurrence(a: string, b: string, pat: string, rep: string)
    requires pat != [] && NoOccurrenceBefore(a + pat + b, pat, |a|)
    ensures Replace(a + pat + b, pat, rep) == a + rep + Replace(b, pat, rep)
  {
    assert a + pat + b == a + (pat + b);
    ReplaceSkipsClear(a, pat + b, pat, rep);
    assert (pat + b)[|pat|..] == b;
    assert StartsWith(pat + b, pat);
  }

  /** `ReplaceFirstOccurrence` when `a` lacks the first character of `pat`. */
  lemma ReplaceAfterFreshHead(a: string, b: string, pat: string, rep: string)
    requires pat != [] && pat[0] !in a
    ensures Replace(a + pat + b, pat, rep) == a + rep + Replace(b, pat, rep)
  {
    FirstCharAbsentClear(a, pat + b, pat);
    assert a + pat + b == a + (pat + b);
    ReplaceFirstOccurrence(a, b, pat, rep);
  }

  /** Python's `sep.join(parts)` for a string separator. */
  function JoinWith(parts: seq<string>, sep: string): string
  {
    if parts == [] then []
    else if |parts| == 1 then parts[0]
    else parts[0] + sep + JoinWith(parts[1..], sep)
  }

  /** The parts run together: `''.join(parts)`. */
  function Concat(parts: seq<string>): string
  {
    if parts == [] then [] else parts[0] + Concat(parts[1..])
  }

  /** In `JoinWith(parts, sep)` every occurrence of `sep` is one of the
      separators: none starts inside a part. */
  predicate OnlyAtSeparators(parts: seq<string>, sep: string) {
    forall k :: 0 <= k < |parts| ==> NoOccurrenceBefore(JoinWith(parts[k..], sep), sep, |parts[k]|)
  }

  /** Removal deletes every occurrence, not only the first: replacing the
      separator of a join by nothing concatenates the parts. */
  lemma {:induction false} RemoveAllOccurrences(parts: seq<string>, pat: string)
    requires pat != [] && |parts| >= 1 && OnlyAtSeparators(parts, pat)
    ensures Replace(JoinWith(parts, pat), pat, []) == Concat(parts)
  {
    var p := parts[0];
    OnlyAtSeparatorsHead(parts, pat);
    ConcatHead(parts);
    if |parts| == 1 {
      assert Concat(parts[1..]) == [];
    } else {
      var rest := JoinWith(parts[1..], pat);
      calc {
        Replace(JoinWith(parts, pat), pat, []);
        Replace(p + pat + rest, pat, []);
        { ReplaceFirstOccurrence(p, rest, pat, []); }
        p + [] + Replace(rest, pat, []);
        { RemoveAllOccurrences(parts[1..], pat); }
        p + [] + Concat(parts[1..]);
        p + Concat(parts[1..]);
      }
    }
  }

  lemma ConcatHead(parts: seq<string>)
    requires parts != []
    ensures Concat(parts) == parts[0] + Concat(parts[1..])
  {
  }

  /** What `OnlyAtSeparators` says about the first part, and that it holds
      for the rest. */
  lemma OnlyAtSeparatorsHead(parts: seq<string>, pat: string)
    requires pat != [] && |parts| >= 1 && OnlyAtSeparators(parts, pat)
    ensures |parts| == 1 ==> !Contains(parts[0], pat)
    ensures |parts| > 1 ==> NoOccurrenceBefore(parts[0] + pat + JoinWith(parts[1..], pat), pat, |parts[0]|)
    ensures OnlyAtSeparators(parts[1..], pat)
  {
    assert parts[0..] == parts;
    if |parts| == 1 {
      ContainsIffOccurs(parts[0], pat);
      assert forall i :: !OccursAt(parts[0], pat, i);
    }
    forall k | 0 <= k < |parts| - 1
      ensures NoOccurrenceBefore(JoinWith(parts[1..][k..], pat), pat, |parts[1..][k]|)
    {
      assert parts[1..][k..] == parts[k + 1..];
    }
  }

  /** A piece that holds no occurrence of the separator's first two
      (different) characters lets no occurrence of it start inside. */
  lemma HeadAbsentOnlyAtSeparators(parts: seq<string>, sep: string)
    requires |sep| >= 2 && sep[0] != sep[1]
    requires forall k :: 0 <= k < |parts| ==> !Contains(parts[k], sep[..2])
    ensures OnlyAtSeparators(parts, sep)
  {
    forall k | 0 <= k < |parts| ensures NoOccurrenceBefore(JoinWith(parts[k..], sep), sep, |parts[k]|) {
      var s := JoinWith(parts[k..], sep);
      assert parts[k..][0] == parts[k];
      assert s == parts[k] || s == parts[k] + sep + JoinWith(parts[k + 1..], sep) by {
        assert parts[k..][1..] == parts[k + 1..];
      }
      forall i | 0 <= i < |parts[k]| ensures !OccursAt(s, sep, i) {
        HeadNotInside(parts[k], s, sep, i);
      }
    }
  }

  /** The step of `HeadAbsentOnlyAtSeparators` for one start index. */
  lemma HeadNotInside(a: string, s: string, sep: string, i: nat)
    requires |sep| >= 2 && sep[0] != sep[1] && !Contains(a, sep[..2]) && i < |a|
    requires StartsWith(s, a) && (|s| > |a| ==> s[|a|] == sep[0])
    ensures !OccursAt(s, sep, i)
  {
    assert forall j :: 0 <= j < |a| ==> s[j] == s[..|a|][j] == a[j];
    assert OccursAt(s, sep, i) ==> s[i] == sep[0] && s[i + 1] == sep[1];
    if i + 1 < |a| {
      ContainsIffOccurs(a, sep[..2]);
      assert !OccursAt(a, sep[..2], i);
      assert a[i..i + 2] == [a[i], a[i + 1]] && sep[..2] == [sep[0], sep[1]];
    }
  }

  /** A character missing from `t[1..]` is missing from every slice of it. */
  lemma AbsentFromSlice(t: string, c: char, lo: nat, hi: nat)
    requires 1 <= lo <= hi <= |t| && c !in t[1..]
    ensures c !in t[lo..hi]
  {
    forall k | 0 <= k < hi - lo ensures t[lo..hi][k] != c {
      assert t[lo..hi][k] == t[1..][lo - 1 + k];
    }
  }

  /** `t[..i] + t + t[i..]` does not start with `t` when `t`'s first
      character is not repeated, and dropping its first character leaves
      `t[1..i] + t + t[i..]`. */
  lemma RejoinShape(t: string, i: nat)
    requires 0 < i < |t| && t[0] !in t[1..]
    ensures var s := t[..i] + t + t[i..];
      !StartsWith(s, t) && s[0] == t[0] && s[1..] == t[1..i] + t + t[i..]
  {
    var s := t[..i] + t + t[i..];
    assert s[i] == t[0];
    assert t[i] == t[1..][i - 1];
    assert s[1..] == t[1..i] + t + t[i..];
  }

  lemma SliceRejoin(t: string, i: nat)
    requires 0 < i <= |t|
    ensures [t[0]] + (t[1..i] + [] + t[i..]) == t
  {
    assert t[1..i] + [] + t[i..] == t[1..];
  }

  /** Removing `t` from `t[..i] + t + t[i..]` joins the two halves into `t`
      again, when the first character of `t` occurs nowhere else in it. */
  lemma RemovalRejoins(t: string, i: nat)
    requires 0 < i < |t| && t[0] !in t[1..]
    ensures Replace(t[..i] + t + t[i..], t, []) == t
  {
    var a, b := t[1..i], t[i..];
    var s := t[..i] + t + t[i..];
    RejoinShape(t, i);
    AbsentFromSlice(t, t[0], 1, i);
    AbsentFromSlice(t, t[0], i, |t|);
    assert b == t[i..|t|];
    ReplaceAfterFreshHead(a, b, t, []);
    AbsentCharNotContained(b, t, t[0]);
    SliceRejoin(t, i);
    calc {
      Replace(s, t, []);
      [t[0]] + Replace(a + t + b, t, []);
      [t[0]] + (a + [] + b);
      t;
    }
  }

  /** Replacement introduces no character that neither `s` nor `rep` holds. */
  lemma {:induction false} ReplaceChars(s: string, pat: string, rep: string, c: char)
    requires pat != [] && c !in s && c !in rep
    ensures c !in Replace(s, pat, rep)
    decreases |s|
  {
    if s != [] {
      if StartsWith(s, pat) {
        ReplaceChars(s[|pat|..], pat, rep, c);
      } else {
        ReplaceChars(s[1..], pat, rep, c);
      }
    }
  }

  /** The number of leading whitespace characters. */
  function Lead(s: string): (n: nat)
    ensures n <= |s|
    ensures forall k :: 0 <= k < n ==> IsSpace(s[k])
    ensures n < |s| ==> !IsSpace(s[n])
    decreases |s|
  {
    if s != [] && IsSpace(s[0]) then 1 + Lead(s[1..]) else 0
  }

  /** The number of trailing whitespace characters. */
  function Trail(s: string): (n: nat)
    ensures n <= |s|
    ensures forall k :: |s| - n <= k < |s| ==> IsSpace(s[k])
    ensures n < |s| ==> !IsSpace(s[|s| - 1 - n])
    decreases |s|
  {
    if s != [] && IsSpace(s[|s| - 1]) then 1 + Trail(s[..|s| - 1]) else 0
  }

  /** Python's `s.strip()`: `s` without its leading and trailing whitespace. */
  function Strip(s: string): (r: string)
    ensures |r| <= |s|
    ensures Lead(s) + |r| <= |s| && r == s[Lead(s)..Lead(s) + |r|]
    ensures forall k :: Lead(s) + |r| <= k < |s| ==> IsSpace(s[k])
    ensures r != [] ==> !IsSpace(r[0]) && !IsSpace(r[|r| - 1])
    ensures r == [] <==> forall k :: 0 <= k < |s| ==> IsSpace(s[k])
  {
    var t := s[Lead(s)..];
    var r := t[..|t| - Trail(t)];
    assert r != [] ==> r[0] == s[Lead(s)];
    r
  }

  /** Text with no whitespace at either end is its own strip. */
  lemma StripUntrimmed(s: string)
    requires s == [] || (!IsSpace(s[0]) && !IsSpace(s[|s| - 1]))
    ensures Strip(s) == s
  {
    var r := Strip(s);
    if s != [] {
      assert Lead(s) == 0;
      assert !IsSpace(s[|s| - 1]);
    }
  }

  /** The first index of `c` in `s`. */
  function IndexOf(s: string, c: char): (i: nat)
    requires c in s
    ensures i < |s| && s[i] == c && c !in s[..i]
  {
    if s[0] == c then 0 else 1 + IndexOf(s[1..], c)
  }

  /** Python's `s.split(sep)` for a one-character separator. */
  function Split(s: string, sep: char): (parts: seq<string>)
    ensures |parts| >= 1
    ensures forall k :: 0 <= k < |parts| ==> sep !in parts[k]
    decreases |s|
  {
    if sep !in s then [s]
    else
      var i := IndexOf(s, sep);
      [s[..i]] + Split(s[i + 1..], sep)
  }

  /** Python's `sep.join(parts)`. */
  function Join(parts: seq<string>, sep: char): string
  {
    if parts == [] then []
    else if |parts| == 1 then parts[0]
    else parts[0] + [sep] + Join(parts[1..], sep)
  }

  /** Joining a non-empty tail after one more piece puts a separator between. */
  lemma JoinCons(a: string, parts: seq<string>, sep: char)
    requires |parts| >= 1
    ensures Join([a] + parts, sep) == a + [sep] + Join(parts, sep)
  {
    assert ([a] + parts)[1..] == parts;
  }

  /** Splitting loses nothing: joining the pieces gives the text back. */
  lemma {:induction false} SplitJoin(s: string, sep: char)
    ensures Join(Split(s, sep), sep) == s
    decreases |s|
  {
    if sep in s {
      var i := IndexOf(s, sep);
      var rest := s[i + 1..];
      SplitJoin(rest, sep);
      JoinCons(s[..i], Split(rest, sep), sep);
      CutAt(s, i);
    }
  }

  /** Text is what comes before index `i`, the character there, and the rest. */
  lemma CutAt(s: string, i: nat)
    requires i < |s|
    ensures s == s[..i] + [s[i]] + s[i + 1..]
  {
  }

  /** Pieces free of the separator are exactly what splitting their join gives. */
  lemma {:induction false} JoinSplit(parts: seq<string>, sep: char)
    requires |parts| >= 1
    requires forall k :: 0 <= k < |parts| ==> sep !in parts[k]
    ensures Split(Join(parts, sep), sep) == parts
  {
    if |parts| > 1 {
      var s := Join(parts, sep);
      JoinSplit(parts[1..], sep);
      assert s == parts[0] + [sep] + Join(parts[1..], sep);
      assert s[|parts[0]|] == sep;
      assert s[..|parts[0]|] == parts[0];
      assert IndexOf(s, sep) == |parts[0]|;
      assert s[|parts[0]| + 1..] == Join(parts[1..], sep);
    } else {
      assert Join(parts, sep) == parts[0];
    }
  }

  /** The decimal digit for `d`. */
  function DigitChar(d: nat): (c: char)
    requires d < 10
    ensures '0' <= c <= '9' && c as int - '0' as int == d
  {
    ('0' as int + d) as char
  }

  /** Python's `str(n)` for `n >= 0`: decimal, no leading zeros. */
  function Decimal(n: nat): (r: string)
    ensures 1 <= |r|
    ensures forall k :: 0 <= k < |r| ==> '0' <= r[k] <= '9'
  {
    if n < 10 then [DigitChar(n)] else Decimal(n / 10) + [DigitChar(n % 10)]
  }

  /** Python's `int(s)` on a string of decimal digits. */
  function ParseDecimal(s: string): nat
    requires forall k :: 0 <= k < |s| ==> '0' <= s[k] <= '9'
  {
    if s == [] then 0
    else 10 * ParseDecimal(s[..|s| - 1]) + (s[|s| - 1] as int - '0' as int)
  }

  /** Reading back the decimal text of `n` gives `n`. */
  lemma {:induction false} DecimalRoundTrip(n: nat)
    ensures ParseDecimal(Decimal(n)) == n
  {
    if n >= 10 {
      DecimalRoundTrip(n / 10);
      var r := Decimal(n);
      assert r[..|r| - 1] == Decimal(n / 10);
    }
  }

  /** Distinct numbers have distinct decimal texts. */
  lemma DecimalInjective(m: nat, n: nat)
    requires Decimal(m) == Decimal(n)
    ensures m == n
  {
    DecimalRoundTrip(m);
    DecimalRoundTrip(n);
  }
}
