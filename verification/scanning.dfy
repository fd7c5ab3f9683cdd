/**
 * The subset of Go's `fmt.Sscanf` that the parser uses: formats made of
 * literal words, single spaces and `%d` verbs. A space in the format needs at
 * least one blank in the input (or the end of the input) and swallows every
 * following blank; `%d` skips blanks, then reads an optional sign and one or
 * more decimal digits; input left after the last verb is ignored.
 *
 * `Words` (the blank-separated words of a text, as `strings.Fields` would
 * cut them except at newlines, which a line never holds) is the reference
 * the scanner is proved against.
 */
module Scanning {
  import opened Wrappers
  import opened Text

  /**
   * The white space of Go's fmt scanner (the `unicode.IsSpace` set) except the
   * newline, which the scanner refuses wherever it expects a blank.
   */
  predicate IsBlank(c: char) {
    || c == ' ' || c == '\t' || c == '\U{B}' || c == '\U{C}' || c == '\r'
    || c == '\U{85}' || c == '\U{A0}' || c == '\U{1680}'
    || ('\U{2000}' <= c <= '\U{200A}')
    || c == '\U{2028}' || c == '\U{2029}' || c == '\U{202F}' || c == '\U{205F}' || c == '\U{3000}'
  }

  /** `s` without its leading blanks. */
  function SkipBlanks(s: string): (r: string)
    ensures |r| <= |s|
    ensures r == [] || !IsBlank(r[0])
  {
    if s != [] && IsBlank(s[0]) then SkipBlanks(s[1..]) else s
  }

  lemma {:induction false} SkipBlanksStop(s: string)
    requires s != [] && !IsBlank(s[0])
    ensures SkipBlanks(s) == s
  {
  }

  lemma {:induction false} SkipBlanksIdempotent(s: string)
    ensures SkipBlanks(SkipBlanks(s)) == SkipBlanks(s)
  {
  }

  /** Length of the maximal run of non-blank characters at the start of `s`. */
  function WordLen(s: string): (n: nat)
    ensures n <= |s|
    ensures n == |s| || IsBlank(s[n])
  {
    if s != [] && !IsBlank(s[0]) then 1 + WordLen(s[1..]) else 0
  }

  /** Every character of the leading word is non-blank. */
  lemma {:induction false} WordLenNonBlank(s: string, i: nat)
    requires i < WordLen(s)
    ensures !IsBlank(s[i])
  {
    if i > 0 {
      WordLenNonBlank(s[1..], i - 1);
    }
  }

  /** The blank-separated words of `s`, in order. */
  function Words(s: string): (ws: seq<string>)
    decreases |s|
  {
    var t := SkipBlanks(s);
    if t == [] then []
    else
      var n := WordLen(t);
      [t[..n]] + Words(t[n..])
  }

  lemma {:induction false} WordsSkipBlanks(s: string)
    ensures Words(SkipBlanks(s)) == Words(s)
  {
    SkipBlanksIdempotent(s);
  }

  /** 1 when `s` starts with a sign character, else 0. */
  function SignLen(s: string): nat {
    if s != [] && (s[0] == '+' || s[0] == '-') then 1 else 0
  }

  /** Length of the integer token `[+-]?[0-9]+` at the start of `s`, or 0 when there is none. */
  function IntPrefix(s: string): (n: nat)
    ensures n <= |s|
  {
    var k := SignLen(s);
    var d := DigitRun(s[k..]);
    if d == 0 then 0 else k + d
  }

  /** Value of the integer token at the start of `s`. */
  function IntValue(s: string): int
    requires IntPrefix(s) > 0
  {
    var k := SignLen(s);
    assert s[k..IntPrefix(s)] == s[k..][..DigitRun(s[k..])];
    var m: int := DigitsValue(s[k..IntPrefix(s)]);
    if s[0] == '-' then -m else m
  }

  /** The integer token at the start of `s` is the same in any prefix of `s` that still holds it. */
  lemma {:induction false} IntPrefixTake(s: string, m: nat)
    requires IntPrefix(s) <= m <= |s|
    ensures IntPrefix(s[..m]) == IntPrefix(s)
    ensures IntPrefix(s) > 0 ==> IntValue(s[..m]) == IntValue(s)
  {
    if m > 0 {
      var k := SignLen(s);
      SignTake(s, m);
      Text.TakeDrop(s, m, k);
      DigitRunTake(s[k..], m - k);
      IntPrefixTakeValue(s, m, k);
    }
  }

  lemma {:induction false} SignTake(s: string, m: nat)
    requires 0 < m <= |s|
    ensures SignLen(s[..m]) == SignLen(s)
  {
  }

  lemma {:induction false} IntPrefixTakeValue(s: string, m: nat, k: nat)
    requires IntPrefix(s) <= m <= |s| && k == SignLen(s) == SignLen(s[..m])
    requires IntPrefix(s[..m]) == IntPrefix(s)
    ensures IntPrefix(s) > 0 ==> IntValue(s[..m]) == IntValue(s)
  {
    if IntPrefix(s) > 0 {
      Text.TakeSlice(s, m, k, IntPrefix(s));
    }
  }

  /** A word is an integer token and nothing else. */
  predicate IsIntWord(w: string) {
    |w| > 0 && IntPrefix(w) == |w|
  }

  /** The result of one `%d`: the value read and the input it left unread. */
  datatype Scanned = Scanned(value: int, rest: string)

  /** The `%d` verb: skip blanks, then read one integer token. */
  function ScanInt(s: string): (r: Option<Scanned>)
    ensures r.Some? ==> |r.value.rest| < |s|
    ensures r.Some? ==> r.value.rest == [] || !IsDigit(r.value.rest[0])
  {
    var t := SkipBlanks(s);
    var n := IntPrefix(t);
    if n == 0 then None else Some(Scanned(IntValue(t), t[n..]))
  }

  /** A space in the format: at least one blank or the end of the input, then every further blank. */
  function MatchSpace(s: string): (r: Option<string>)
  {
    if s == [] then Some(s)
    else if IsBlank(s[0]) then Some(SkipBlanks(s))
    else None
  }

  /** A format space fails only on a non-blank, and never changes the words that follow. */
  lemma {:induction false} MatchSpaceWords(s: string)
    ensures MatchSpace(s).None? <==> s != [] && !IsBlank(s[0])
    ensures MatchSpace(s).Some? ==> Words(MatchSpace(s).value) == Words(s)
  {
    WordsSkipBlanks(s);
  }

  /** The format `"%d %d ... %d"` with `n` verbs. */
  function ScanInts(s: string, n: nat): (r: Option<seq<int>>)
    requires n >= 1
    ensures r.Some? ==> |r.value| == n
    decreases n
  {
    match ScanInt(s)
    case None => None
    case Some(Scanned(v, rest)) =>
      if n == 1 then Some([v])
      else
        match MatchSpace(rest)
        case None => None
        case Some(next) =>
          match ScanInts(next, n - 1)
          case None => None
          case Some(vs) => Some([v] + vs)
  }

  /**
   * The format `key + " %d"`: the literal word `key`, a format space, then one
   * `%d`. The value read, or `None` where `fmt.Sscanf` reports an error.
   */
  function ScanKeyed(s: string, key: string): (r: Option<int>)
  {
    if !HasPrefix(s, key) then None
    else
      match MatchSpace(s[|key|..])
      case None => None
      case Some(t) =>
        match ScanInt(t)
        case None => None
        case Some(Scanned(v, _)) => Some(v)
  }

  /**
   * Reading `n` integers succeeds exactly when the text has at least `n`
   * words, the first `n - 1` are integer tokens and the `n`-th starts with one.
   */
  predicate ScansAsWords(ws: seq<string>, n: nat)
    requires n >= 1
  {
    && n <= |ws|
    && (forall i :: 0 <= i < n - 1 ==> IsIntWord(ws[i]))
    && IntPrefix(ws[n - 1]) > 0
  }

  /** The values of the first `n` words of `ws`. */
  function WordValues(ws: seq<string>, n: nat): (vs: seq<int>)
    requires n >= 1 && ScansAsWords(ws, n)
    ensures |vs| == n
    decreases n
  {
    if n == 1 then [IntValue(ws[0])]
    else
      assert ScansAsWords(ws[1..], n - 1) by {
        assert forall i :: 0 <= i < n - 2 ==> ws[1..][i] == ws[i + 1];
      }
      [IntValue(ws[0])] + WordValues(ws[1..], n - 1)
  }

  lemma {:induction false} ScansAsWordsCons(ws: seq<string>, n: nat)
    requires n >= 2 && |ws| >= 1
    ensures ScansAsWords(ws, n) <==> IsIntWord(ws[0]) && ScansAsWords(ws[1..], n - 1)
  {
    if IsIntWord(ws[0]) && ScansAsWords(ws[1..], n - 1) {
      assert forall i :: 1 <= i < n - 1 ==> ws[i] == ws[1..][i - 1];
    }
  }

  /** The first word of a text whose first blank-free run starts with an integer token. */
  lemma {:induction false} FirstWord(s: string)
    requires SkipBlanks(s) != []
    ensures var t := SkipBlanks(s);
            && Words(s) == [t[..WordLen(t)]] + Words(t[WordLen(t)..])
            && IntPrefix(t) <= WordLen(t)
            && IntPrefix(t[..WordLen(t)]) == IntPrefix(t)
            && (IntPrefix(t) > 0 ==> IntValue(t[..WordLen(t)]) == IntValue(t))
  {
    var t := SkipBlanks(s);
    IntPrefixInWord(t);
    IntPrefixTake(t, WordLen(t));
  }

  /** An integer token holds no blank, so it never reaches past the first word. */
  lemma {:induction false} IntPrefixInWord(t: string)
    ensures IntPrefix(t) <= WordLen(t)
  {
  }

  /**
   * `ScanInts` against the word reference: it succeeds exactly when the
   * words allow it, and then returns the words' values in order; whatever
   * follows the `n`-th integer token is ignored.
   */
  predicate ScanAgrees(s: string, n: nat)
    requires n >= 1
  {
    && (ScanInts(s, n).Some? <==> ScansAsWords(Words(s), n))
    && (ScanInts(s, n).Some? ==> ScanInts(s, n).value == WordValues(Words(s), n))
  }

  /** `ScanInts` agrees with the word reference on every text, for every number of verbs. */
  lemma {:induction false} ScanIntsWords(s: string, n: nat)
    requires n >= 1
    ensures ScanAgrees(s, n)
    decreases n, 1
  {
    ScanIntsWordsEmpty(s, n);
    ScanIntsWordsNoInt(s, n);
    ScanIntsWordsOne(s, n);
    ScanIntsWordsShort(s, n);
    IntPrefixInWord(SkipBlanks(s));
    ScanIntsWordsNext(s, n);
  }

  lemma {:induction false} ScanIntsWordsEmpty(s: string, n: nat)
    requires n >= 1
    ensures SkipBlanks(s) == [] ==> ScanAgrees(s, n)
  {
    if SkipBlanks(s) == [] {
      assert Words(s) == [];
    }
  }

  /** No integer token where the first word starts: neither side reads anything. */
  lemma {:induction false} ScanIntsWordsNoInt(s: string, n: nat)
    requires n >= 1
    ensures SkipBlanks(s) != [] && IntPrefix(SkipBlanks(s)) == 0 ==> ScanAgrees(s, n)
  {
    if SkipBlanks(s) != [] && IntPrefix(SkipBlanks(s)) == 0 {
      FirstWord(s);
      var ws := Words(s);
      assert ScanInt(s).None?;
      assert !IsIntWord(ws[0]) && IntPrefix(ws[0]) == 0;
    }
  }

  /** A single `%d` reads the integer token that starts the first word. */
  lemma {:induction false} ScanIntsWordsOne(s: string, n: nat)
    requires n >= 1
    ensures n == 1 && SkipBlanks(s) != [] && IntPrefix(SkipBlanks(s)) > 0 ==> ScanAgrees(s, n)
  {
    if n == 1 && SkipBlanks(s) != [] && IntPrefix(SkipBlanks(s)) > 0 {
      FirstWord(s);
    }
  }

  /**
   * A first word that continues past its integer token: the format space
   * after the first `%d` meets a non-blank, and the word is no integer word.
   */
  lemma {:induction false} ScanIntsWordsShort(s: string, n: nat)
    requires n >= 1
    ensures n >= 2 && SkipBlanks(s) != [] && 0 < IntPrefix(SkipBlanks(s)) < WordLen(SkipBlanks(s)) ==> ScanAgrees(s, n)
  {
    var t := SkipBlanks(s);
    if n >= 2 && t != [] && 0 < IntPrefix(t) < WordLen(t) {
      var p := IntPrefix(t);
      FirstWord(s);
      var ws := Words(s);
      ScansAsWordsCons(ws, n);
      WordLenNonBlank(t, p);
      assert MatchSpace(t[p..]).None?;
      assert !IsIntWord(ws[0]);
    }
  }

  /** What the format space leaves after a whole first word. */
  function SpaceAfterWord(t: string): (next: string)
    ensures MatchSpace(t[WordLen(t)..]) == Some(next)
    ensures Words(next) == Words(t[WordLen(t)..])
  {
    var rest := t[WordLen(t)..];
    MatchSpaceWords(rest);
    MatchSpace(rest).value
  }

  /** A first word that is one integer token: one `%d`, then the rest of the words. */
  lemma {:induction false} ScanIntsWordsNext(s: string, n: nat)
    requires n >= 1
    ensures n >= 2 && SkipBlanks(s) != [] && 0 < IntPrefix(SkipBlanks(s)) == WordLen(SkipBlanks(s)) ==> ScanAgrees(s, n)
    decreases n, 0
  {
    var t := SkipBlanks(s);
    if n >= 2 && t != [] && 0 < IntPrefix(t) == WordLen(t) {
      var next := SpaceAfterWord(t);
      ScanIntsWords(next, n - 1);
      FirstWord(s);
      var ws := Words(s);
      ScansAsWordsCons(ws, n);
      assert ws[1..] == Words(next);
    }
  }


  /** `%d` formatting of an integer (`strconv.FormatInt(v, 10)`). */
  function FormatInt(v: int): string {
    if v < 0 then "-" + NatDigits(-v) else NatDigits(v)
  }

  /**
   * Integers separated by single spaces, as the kernel writes them, followed
   * by the text `rest`.
   */
  function JoinInts(vs: seq<int>, rest: string): string
    requires |vs| >= 1
    decreases |vs|
  {
    FormatInt(vs[0]) + (if |vs| == 1 then rest else " " + JoinInts(vs[1..], rest))
  }

  /** `%d` on a text that starts with an integer token of length `n`. */
  lemma {:induction false} ScanIntAt(s: string, n: nat, v: int, rest: string)
    requires SkipBlanks(s) == s && IntPrefix(s) == n > 0 && IntValue(s) == v && s[n..] == rest
    ensures ScanInt(s) == Some(Scanned(v, rest))
  {
  }

  /** The integer token of an optional minus sign and a digit string not followed by a digit. */
  lemma {:induction false} IntPrefixDigits(sign: string, d: string, rest: string)
    requires sign == "" || sign == "-"
    requires |d| >= 1 && AllDigits(d)
    requires rest == [] || !IsDigit(rest[0])
    ensures var s := sign + d + rest;
            && IntPrefix(s) == |sign| + |d|
            && IntValue(s) == (if sign == "-" then 0 - DigitsValue(d) else DigitsValue(d))
            && s[|sign| + |d|..] == rest
  {
    var s := sign + d + rest;
    var k := |sign|;
    Text.Slices3(sign, d, rest);
    assert SignLen(s) == k;
    DigitRunAppend(d, rest);
    IntValueDigits(s, k, d);
  }

  lemma {:induction false} IntValueDigits(s: string, k: nat, d: string)
    requires SignLen(s) == k && IntPrefix(s) == k + |d| > 0 && s[k..k + |d|] == d && AllDigits(d)
    ensures IntValue(s) == (if s[0] == '-' then 0 - DigitsValue(d) else DigitsValue(d))
  {
  }

  /** `%d` on an optional minus sign, a digit string and a text that does not continue the digits. */
  lemma {:induction false} ScanIntDigits(sign: string, d: string, rest: string)
    requires sign == "" || sign == "-"
    requires |d| >= 1 && AllDigits(d)
    requires rest == [] || !IsDigit(rest[0])
    ensures ScanInt(sign + d + rest) == Some(Scanned(if sign == "-" then 0 - DigitsValue(d) else DigitsValue(d), rest))
  {
    var s := sign + d + rest;
    assert s[0] == '-' || IsDigit(s[0]);
    SkipBlanksStop(s);
    IntPrefixDigits(sign, d, rest);
    ScanIntAt(s, |sign| + |d|, if sign == "-" then 0 - DigitsValue(d) else DigitsValue(d), rest);
  }

  /** `%d` reads back what `FormatInt` wrote and stops at the next non-digit. */
  lemma {:induction false} ScanIntFormat(v: int, rest: string)
    requires rest == [] || !IsDigit(rest[0])
    ensures ScanInt(FormatInt(v) + rest) == Some(Scanned(v, rest))
  {
    if v < 0 {
      NatDigitsValue(-v);
      ScanIntNegative(NatDigits(-v), -v, rest);
    } else {
      NatDigitsValue(v);
      ScanIntNatural(NatDigits(v), v, rest);
    }
  }

  lemma {:induction false} ScanIntNegative(d: string, n: nat, rest: string)
    requires |d| >= 1 && AllDigits(d) && DigitsValue(d) == n
    requires rest == [] || !IsDigit(rest[0])
    ensures ScanInt("-" + d + rest) == Some(Scanned(-(n as int), rest))
  {
    ScanIntDigits("-", d, rest);
  }

  lemma {:induction false} ScanIntNatural(d: string, n: nat, rest: string)
    requires |d| >= 1 && AllDigits(d) && DigitsValue(d) == n
    requires rest == [] || !IsDigit(rest[0])
    ensures ScanInt(d + rest) == Some(Scanned(n, rest))
  {
    ScanIntDigits("", d, rest);
    assert "" + d + rest == d + rest;
  }

  /** A formatted integer starts with a sign or a digit, never with a blank. */
  lemma {:induction false} FormatIntHead(v: int, rest: string)
    ensures |FormatInt(v) + rest| > 0 && !IsBlank((FormatInt(v) + rest)[0])
  {
    var f := FormatInt(v);
    assert f[0] == '-' || IsDigit(f[0]);
    assert (f + rest)[0] == f[0];
  }

  /** Joined integers start with a sign or a digit, never with a blank. */
  lemma {:induction false} JoinHead(vs: seq<int>, rest: string)
    requires |vs| >= 1
    ensures JoinInts(vs, rest) != [] && !IsBlank(JoinInts(vs, rest)[0])
  {
    FormatIntHead(vs[0], if |vs| == 1 then rest else " " + JoinInts(vs[1..], rest));
  }

  /** A format space in front of a non-blank text is swallowed whole. */
  lemma {:induction false} MatchSpaceBeforeWord(y: string)
    requires y != [] && !IsBlank(y[0])
    ensures MatchSpace(" " + y) == Some(y)
  {
    assert (" " + y)[1..] == y;
    SkipBlanksStop(y);
  }

  /** One `%d` and a format space, then the remaining `n - 1` verbs. */
  lemma {:induction false} ScanIntsStep(s: string, n: nat, m: nat, v: int, rest: string, next: string, vs: seq<int>, all: seq<int>)
    requires m >= 1 && n == m + 1 && all == [v] + vs
    requires ScanInt(s) == Some(Scanned(v, rest))
    requires MatchSpace(rest) == Some(next)
    requires ScanInts(next, m) == Some(vs)
    ensures ScanInts(s, n) == Some(all)
  {
  }

  /** Round trip: scanning `n` integers out of their joined text returns them. */
  lemma {:induction false} ScanIntsJoin(vs: seq<int>, rest: string)
    requires |vs| >= 1
    requires rest == [] || !IsDigit(rest[0])
    ensures ScanInts(JoinInts(vs, rest), |vs|) == Some(vs)
    decreases |vs|
  {
    if |vs| == 1 {
      ScanIntsJoinOne(vs, rest);
    } else {
      ScanIntsJoin(vs[1..], rest);
      ScanIntsJoinCons(vs, rest);
    }
  }

  lemma {:induction false} ScanIntsJoinOne(vs: seq<int>, rest: string)
    requires |vs| == 1
    requires rest == [] || !IsDigit(rest[0])
    ensures ScanInts(JoinInts(vs, rest), |vs|) == Some(vs)
  {
    ScanIntFormat(vs[0], rest);
    assert [vs[0]] == vs;
  }

  lemma {:induction false} ScanIntsJoinCons(vs: seq<int>, rest: string)
    requires |vs| >= 2
    requires ScanInts(JoinInts(vs[1..], rest), |vs[1..]|) == Some(vs[1..])
    ensures ScanInts(JoinInts(vs, rest), |vs|) == Some(vs)
  {
    assert [vs[0]] + vs[1..] == vs;
    JoinHead(vs[1..], rest);
    ScanIntsCons(JoinInts(vs, rest), |vs|, vs[0], JoinInts(vs[1..], rest), vs[1..], vs);
  }

  /**
   * A formatted integer, a single space and a text of `m` scannable integers
   * scan as `m + 1` integers.
   */
  lemma {:induction false} ScanIntsCons(s: string, n: nat, v: int, tail: string, vs: seq<int>, all: seq<int>)
    requires |vs| >= 1 && n == |vs| + 1 && all == [v] + vs
    requires s == FormatInt(v) + (" " + tail)
    requires tail != [] && !IsBlank(tail[0])
    requires ScanInts(tail, |vs|) == Some(vs)
    ensures ScanInts(s, n) == Some(all)
  {
    ScanIntFormat(v, " " + tail);
    MatchSpaceBeforeWord(tail);
    ScanIntsStep(s, n, |vs|, v, " " + tail, tail, vs, all);
  }

  /** `ScanKeyed` reads back the value of a `key value` line. */
  lemma {:induction false} ScanKeyedFormat(key: string, v: int, rest: string)
    requires rest == [] || !IsDigit(rest[0])
    ensures ScanKeyed(key + " " + FormatInt(v) + rest, key) == Some(v)
  {
    var f := FormatInt(v);
    Text.Split4(key, " ", f, rest);
    FormatIntHead(v, rest);
    MatchSpaceBeforeWord(f + rest);
    ScanIntFormat(v, rest);
  }

  /**
   * `ScanKeyed` against the word reference: after the key there must be a
   * blank (or nothing) and the first word that follows must start with an
   * integer token, whose value is the result.
   */
  lemma {:induction false} ScanKeyedWords(s: string, key: string)
    ensures ScanKeyed(s, key).Some? <==>
              && HasPrefix(s, key)
              && (|s| == |key| || IsBlank(s[|key|]))
              && ScansAsWords(Words(s[|key|..]), 1)
    ensures ScanKeyed(s, key).Some? ==> ScanKeyed(s, key).value == IntValue(Words(s[|key|..])[0])
  {
    if HasPrefix(s, key) && (|s| == |key| || IsBlank(s[|key|])) {
      var t := MatchSpace(s[|key|..]).value;
      MatchSpaceWords(s[|key|..]);
      ScanIntsWords(t, 1);
    }
  }
}
