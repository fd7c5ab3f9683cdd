/**
 * The pieces of Go's `strings`, `strconv` and `regexp` packages that the
 * /proc/stat parser relies on, stated over `string == seq<char>`.
 */
module Text {
  import opened Wrappers

  predicate IsDigit(c: char) {
    '0' <= c <= '9'
  }

  predicate AllDigits(s: string) {
    forall i :: 0 <= i < |s| ==> IsDigit(s[i])
  }

  /** `strings.HasPrefix(s, p)`. */
  predicate HasPrefix(s: string, p: string) {
    |p| <= |s| && s[..|p|] == p
  }

  /** `p` appears in `s` starting at index `i`. */
  predicate OccursAt(s: string, p: string, i: int) {
    0 <= i && i + |p| <= |s| && s[i..i + |p|] == p
  }

  /** `strings.Contains(s, p)`. */
  predicate Occurs(s: string, p: string) {
    exists i :: 0 <= i <= |s| - |p| && OccursAt(s, p, i)
  }

  /** Dropping a first character that does not start an occurrence keeps the occurrences. */
  lemma {:induction false} OccursTail(s: string, p: string)
    requires |s| > 0 && !OccursAt(s, p, 0)
    ensures Occurs(s, p) <==> Occurs(s[1..], p)
  {
    if Occurs(s, p) {
      var i :| 0 <= i <= |s| - |p| && OccursAt(s, p, i);
      assert s[1..][i - 1..i - 1 + |p|] == s[i..i + |p|];
      assert OccursAt(s[1..], p, i - 1);
    }
    if Occurs(s[1..], p) {
      var i :| 0 <= i <= |s[1..]| - |p| && OccursAt(s[1..], p, i);
      assert s[1..][i..i + |p|] == s[i + 1..i + 1 + |p|];
      assert OccursAt(s, p, i + 1);
    }
  }

  /** A text without the first character of `p` cannot contain `p`. */
  lemma {:induction false} NoOccurrenceWithoutHead(s: string, p: string)
    requires |p| > 0 && forall i :: 0 <= i < |s| ==> s[i] != p[0]
    ensures !Occurs(s, p)
  {
    forall i | 0 <= i <= |s| - |p|
      ensures !OccursAt(s, p, i)
    {
      assert s[i..i + |p|][0] == s[i];
    }
  }

  /** The three parts of a concatenation, sliced back out. */
  lemma {:induction false} Slices3<T>(a: seq<T>, b: seq<T>, c: seq<T>)
    ensures (a + b + c)[..|a|] == a
    ensures (a + b + c)[|a|..] == b + c
    ensures (a + b + c)[|a|..|a| + |b|] == b
    ensures (a + b + c)[|a| + |b|..] == c
    ensures |a| + |b| > 0 ==> (a + b + c)[0] == if |a| > 0 then a[0] else b[0]
  {
  }

  /** A four-part concatenation split after its first part. */
  lemma {:induction false} Split4<T>(a: seq<T>, b: seq<T>, c: seq<T>, d: seq<T>)
    ensures |a| <= |a + b + c + d|
    ensures (a + b + c + d)[..|a|] == a
    ensures (a + b + c + d)[|a|..] == b + (c + d)
  {
  }

  /** A slice of a prefix is a slice of the whole. */
  lemma {:induction false} TakeSlice<T>(s: seq<T>, m: nat, a: nat, b: nat)
    requires a <= b <= m <= |s|
    ensures s[..m][a..b] == s[a..b]
  {
  }

  /** Dropping from a prefix is taking from a suffix. */
  lemma {:induction false} TakeDrop<T>(s: seq<T>, m: nat, k: nat)
    requires k <= m <= |s|
    ensures s[..m][k..] == s[k..][..m - k]
  {
  }

  /** Length of the maximal run of decimal digits at the start of `s`. */
  function DigitRun(s: string): (n: nat)
    ensures n <= |s|
    ensures AllDigits(s[..n])
    ensures n == |s| || !IsDigit(s[n])
  {
    if s != [] && IsDigit(s[0]) then
      assert forall i :: 1 <= i < 1 + DigitRun(s[1..]) ==> s[i] == s[1..][..DigitRun(s[1..])][i - 1];
      1 + DigitRun(s[1..])
    else 0
  }

  /** Cutting a text short cuts its leading digit run at most to the cut. */
  lemma {:induction false} DigitRunTake(s: string, m: nat)
    requires m <= |s|
    ensures DigitRun(s[..m]) == if DigitRun(s) < m then DigitRun(s) else m
  {
    if m > 0 && IsDigit(s[0]) {
      assert s[..m][1..] == s[1..][..m - 1];
      DigitRunTake(s[1..], m - 1);
    }
  }

  /** A digit string followed by a non-digit has exactly its own length as digit run. */
  lemma {:induction false} DigitRunAppend(d: string, rest: string)
    requires AllDigits(d)
    requires rest == [] || !IsDigit(rest[0])
    ensures DigitRun(d + rest) == |d|
  {
    if d != [] {
      assert (d + rest)[1..] == d[1..] + rest;
      DigitRunAppend(d[1..], rest);
    } else {
      assert d + rest == rest;
    }
  }

  /**
   * Decimal value of a digit string: what `strconv.Atoi` and `strconv.ParseInt`
   * compute for it, without their 64-bit range check.
   */
  function DigitsValue(d: string): nat
    requires AllDigits(d)
  {
    if d == [] then 0 else 10 * DigitsValue(d[..|d| - 1]) + (d[|d| - 1] as int - '0' as int)
  }

  /** Shortest decimal rendering of a natural number (`strconv.Itoa` for `n >= 0`). */
  function NatDigits(n: nat): (d: string)
    ensures |d| >= 1 && AllDigits(d)
  {
    if n < 10 then [('0' as int + n) as char]
    else NatDigits(n / 10) + [('0' as int + n % 10) as char]
  }

  /** Reading back a rendered natural number gives the number. */
  lemma {:induction false} NatDigitsValue(n: nat)
    ensures DigitsValue(NatDigits(n)) == n
  {
    var d := NatDigits(n);
    if n >= 10 {
      assert d[..|d| - 1] == NatDigits(n / 10);
      NatDigitsValue(n / 10);
    } else {
      assert d[..|d| - 1] == [];
    }
  }

  /**
   * `strings.ReplaceAll(s, pat, "")`: every occurrence of `pat` found by a
   * left-to-right scan is removed; the scan resumes after each removed
   * occurrence and never looks at text it has already emitted.
   */
  function RemoveAll(s: string, pat: string): (r: string)
    requires |pat| > 0
    ensures |r| <= |s|
    ensures !Occurs(s, pat) ==> r == s
    decreases |s|
  {
    if |s| < |pat| then s
    else if s[..|pat|] == pat then
      assert OccursAt(s, pat, 0);
      RemoveAll(s[|pat|..], pat)
    else
      OccursTail(s, pat);
      [s[0]] + RemoveAll(s[1..], pat)
  }

  /** What `regexp.MustCompile("cpu([0-9]*)").FindStringSubmatch` returns when it matches. */
  datatype CpuMatch = CpuMatch(whole: string, id: string)

  /** Index of the leftmost occurrence of `cpu` in `s`, if any. */
  function LeftmostCpu(s: string): (r: Option<nat>)
    ensures r.None? <==> !Occurs(s, "cpu")
    ensures r.Some? ==> OccursAt(s, "cpu", r.value)
    ensures r.Some? ==> forall j :: 0 <= j < r.value ==> !OccursAt(s, "cpu", j)
    decreases |s|
  {
    if |s| < 3 then
      None
    else if s[..3] == "cpu" then
      assert OccursAt(s, "cpu", 0);
      Some(0)
    else
      assert !OccursAt(s, "cpu", 0);
      OccursTail(s, "cpu");
      match LeftmostCpu(s[1..])
      case None => None
      case Some(i) =>
        LeftmostShift(s, "cpu", i);
        Some(i + 1)
  }

  /** The leftmost occurrence in `s[1..]` moves one place right in `s` when `s` does not start with one. */
  lemma {:induction false} LeftmostShift(s: string, p: string, i: nat)
    requires |s| > 0 && !OccursAt(s, p, 0)
    requires OccursAt(s[1..], p, i) && forall j :: 0 <= j < i ==> !OccursAt(s[1..], p, j)
    ensures OccursAt(s, p, i + 1) && forall j :: 0 <= j < i + 1 ==> !OccursAt(s, p, j)
  {
    assert s[i + 1..i + 1 + |p|] == s[1..][i..i + |p|];
    forall j | 1 <= j <= i
      ensures !OccursAt(s, p, j)
    {
      assert !OccursAt(s[1..], p, j - 1);
      if j + |p| <= |s| {
        assert s[j..j + |p|] == s[1..][j - 1..j - 1 + |p|];
      }
    }
  }

  /**
   * The match of `cpu([0-9]*)` in `s`: the leftmost occurrence of `cpu`
   * together with the maximal run of digits after it (the group is greedy).
   */
  function FindCpuPrefix(s: string): (r: Option<CpuMatch>)
    ensures r.None? <==> !Occurs(s, "cpu")
    ensures r.Some? ==> r.value.whole == "cpu" + r.value.id && AllDigits(r.value.id)
    ensures r.Some? ==> var i := LeftmostCpu(s).value;
                        && OccursAt(s, r.value.whole, i)
                        && (i + |r.value.whole| == |s| || !IsDigit(s[i + |r.value.whole|]))
  {
    match LeftmostCpu(s)
    case None => None
    case Some(i) =>
      var d := DigitRun(s[i + 3..]);
      CpuMatchAt(s, i, d);
      Some(CpuMatch(s[i..i + 3 + d], s[i + 3..i + 3 + d]))
  }

  /** `cpu` at `i` followed by its digit run of length `d` is a match of `cpu([0-9]*)` that cannot be extended. */
  lemma {:induction false} CpuMatchAt(s: string, i: nat, d: nat)
    requires OccursAt(s, "cpu", i) && d == DigitRun(s[i + 3..])
    ensures i + 3 + d <= |s|
    ensures s[i..i + 3 + d] == "cpu" + s[i + 3..i + 3 + d]
    ensures AllDigits(s[i + 3..i + 3 + d])
    ensures OccursAt(s, s[i..i + 3 + d], i)
    ensures i + 3 + d == |s| || !IsDigit(s[i + 3 + d])
  {
    var t := s[i + 3..];
    assert s[i + 3..i + 3 + d] == t[..d];
    assert s[i..i + 3 + d] == s[i..i + 3] + t[..d];
    if i + 3 + d < |s| {
      assert s[i + 3 + d] == t[d];
    }
  }

  /** A line that starts with `cpu` is matched at column 0. */
  lemma {:induction false} FindCpuPrefixAtStart(s: string)
    requires HasPrefix(s, "cpu")
    ensures FindCpuPrefix(s) == Some(CpuMatch(s[..3 + DigitRun(s[3..])], s[3..3 + DigitRun(s[3..])]))
  {
  }

  /** A `cpu` tag with digit group `d`, followed by a text that does not continue the digits, is matched exactly. */
  lemma {:induction false} FindCpuTagged(d: string, body: string)
    requires AllDigits(d)
    requires body == [] || !IsDigit(body[0])
    ensures FindCpuPrefix("cpu" + d + body) == Some(CpuMatch("cpu" + d, d))
  {
    var s := "cpu" + d + body;
    Slices3("cpu", d, body);
    DigitRunAppend(d, body);
    assert s[..3 + |d|] == "cpu" + d;
    FindCpuPrefixAtStart(s);
  }

  /** Removing `pat` from `pat + body` leaves `body` when `body` holds no further occurrence. */
  lemma {:induction false} RemoveLeading(pat: string, body: string)
    requires |pat| > 0 && !Occurs(body, pat)
    ensures RemoveAll(pat + body, pat) == body
  {
    var s := pat + body;
    assert s[..|pat|] == pat;
    assert s[|pat|..] == body;
  }
}
