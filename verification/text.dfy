/** String operations the source takes from JavaScript's `String` methods, over
    `seq<char>`: ASCII case folding, prefix and substring tests, `trim`, `split`,
    `replace` of the first occurrence, and decimal integers to and from text. */
module Text {
  import opened Wrappers

  // ---------------------------------------------------------------- case

  /** `toLowerCase` on one character, for the ASCII letters. */
  function LowerChar(c: char): char
  {
    if 'A' <= c <= 'Z' then (c as int + 32) as char else c
  }

  function ToLower(s: string): (r: string)
    ensures |r| == |s|
    ensures forall i :: 0 <= i < |s| ==> r[i] == LowerChar(s[i])
  {
    seq(|s|, i requires 0 <= i < |s| => LowerChar(s[i]))
  }

  // ---------------------------------------------------------------- search

  /** `s.startsWith(prefix)`. */
  predicate StartsWith(s: string, prefix: string)
  {
    |prefix| <= |s| && s[..|prefix|] == prefix
  }

  predicate EndsWith(s: string, suffix: string)
  {
    |suffix| <= |s| && s[|s| - |suffix|..] == suffix
  }

  /** `sub` occurs in `s` starting at index `i`. */
  predicate OccursAt(s: string, sub: string, i: int)
  {
    0 <= i && i + |sub| <= |s| && s[i..i + |sub|] == sub
  }

  /** The first index at or after `k` where `sub` occurs. */
  function IndexFrom(s: string, sub: string, k: nat): (r: Option<nat>)
    ensures r.Some? ==> k <= r.value && OccursAt(s, sub, r.value)
    ensures r.Some? ==> forall j :: k <= j < r.value ==> !OccursAt(s, sub, j)
    ensures r.None? ==> forall j :: k <= j ==> !OccursAt(s, sub, j)
    decreases |s| - k
  {
    if k + |sub| > |s| then None
    else if s[k..k + |sub|] == sub then Some(k)
    else IndexFrom(s, sub, k + 1)
  }

  /** `s.indexOf(sub)`, with `None` for -1. */
  function IndexOf(s: string, sub: string): (r: Option<nat>)
    ensures r.Some? ==> OccursAt(s, sub, r.value) && forall j :: 0 <= j < r.value ==> !OccursAt(s, sub, j)
    ensures r.None? <==> forall j :: !OccursAt(s, sub, j)
  {
    IndexFrom(s, sub, 0)
  }

  /** `s.includes(sub)`. */
  predicate Contains(s: string, sub: string)
  {
    IndexOf(s, sub).Some?
  }

  /** `s.toLowerCase().includes(term.toLowerCase())`: the search box test. */
  predicate MatchesSearch(s: string, term: string)
  {
    Contains(ToLower(s), ToLower(term))
  }

  /** An empty search term matches every text. */
  lemma EmptySearchMatches(s: string)
    ensures MatchesSearch(s, "")
  {
    assert OccursAt(ToLower(s), "", 0);
  }

  /** `s.replace(pat, '')` with a string pattern: only the FIRST occurrence goes. */
  function RemoveFirst(s: string, pat: string): (r: string)
    ensures !Contains(s, pat) ==> r == s
    ensures Contains(s, pat) ==> |r| == |s| - |pat|
    ensures Contains(s, pat) ==> var i := IndexOf(s, pat).value; r == s[..i] + s[i + |pat|..]
  {
    match IndexOf(s, pat)
    case None => s
    case Some(i) => s[..i] + s[i + |pat|..]
  }

  /** Removing a non-empty pattern leaves the text unchanged exactly when the
      pattern does not occur in it. */
  lemma RemoveFirstUnchangedIff(s: string, pat: string)
    requires |pat| > 0
    ensures RemoveFirst(s, pat) == s <==> !Contains(s, pat)
  {
    if Contains(s, pat) {
      assert |RemoveFirst(s, pat)| < |s|;
    }
  }

  /** A text that begins with `pat` loses exactly that prefix. */
  lemma {:induction false} RemoveFirstOfPrefixed(pat: string, rest: string)
    ensures RemoveFirst(pat + rest, pat) == rest
  {
    assert OccursAt(pat + rest, pat, 0) by { assert (pat + rest)[0..|pat|] == pat; }
    assert IndexOf(pat + rest, pat) == Some(0);
  }

  // ---------------------------------------------------------------- trim

  /** The white-space characters `trim` and `parseInt` skip (ASCII ones). */
  predicate IsSpace(c: char)
  {
    c == ' ' || c == '\t' || c == '\n' || c == '\r' || c == '\U{000B}' || c == '\U{000C}'
  }

  function TrimStart(s: string): (r: string)
    ensures |r| <= |s| && r == s[|s| - |r|..]
    ensures forall k :: 0 <= k < |s| - |r| ==> IsSpace(s[k])
    ensures r == [] || !IsSpace(r[0])
  {
    if |s| > 0 && IsSpace(s[0]) then TrimStart(s[1..]) else s
  }

  function TrimEnd(s: string): (r: string)
    ensures |r| <= |s| && r == s[..|r|]
    ensures forall k :: |r| <= k < |s| ==> IsSpace(s[k])
    ensures r == [] || !IsSpace(r[|r| - 1])
  {
    if |s| > 0 && IsSpace(s[|s| - 1]) then TrimEnd(s[..|s| - 1]) else s
  }

  /** Neither end of `s` is white space. */
  predicate IsTrimmed(s: string)
  {
    s == [] || (!IsSpace(s[0]) && !IsSpace(s[|s| - 1]))
  }

  /** `s.trim()`: the text with white space removed at both ends. */
  function Trim(s: string): (r: string)
    ensures IsTrimmed(r)
    ensures |r| <= |s|
    ensures exists a, b :: TrimmedSlice(s, r, a, b)
  {
    TrimEnds(s);
    TrimEnd(TrimStart(s))
  }

  lemma TrimEnds(s: string)
    ensures IsTrimmed(TrimEnd(TrimStart(s)))
    ensures exists a, b :: TrimmedSlice(s, TrimEnd(TrimStart(s)), a, b)
  {
    var t := TrimStart(s);
    var r := TrimEnd(t);
    assert r == [] || r[0] == t[0];
    TrimCore(s, t, r);
  }

  /** `r` is `s[a..b]`, and everything of `s` outside `a..b` is white space. */
  ghost predicate TrimmedSlice(s: string, r: string, a: int, b: int)
  {
    0 <= a <= b <= |s| && r == s[a..b]
    && (forall i :: 0 <= i < a ==> IsSpace(s[i]))
    && (forall i :: b <= i < |s| ==> IsSpace(s[i]))
  }

  /** What trimming keeps is a slice of the text with only white space around it. */
  lemma TrimCore(s: string, t: string, r: string)
    requires |t| <= |s| && t == s[|s| - |t|..] && forall k :: 0 <= k < |s| - |t| ==> IsSpace(s[k])
    requires |r| <= |t| && r == t[..|r|] && forall k :: |r| <= k < |t| ==> IsSpace(t[k])
    ensures TrimmedSlice(s, r, |s| - |t|, |s| - |t| + |r|)
  {
    var a := |s| - |t|;
    assert s[a..a + |r|] == t[..|r|];
    forall i | a + |r| <= i < |s| ensures IsSpace(s[i]) {
      assert s[i] == t[i - a];
    }
  }

  lemma TrimOfTrimmed(s: string)
    requires IsTrimmed(s)
    ensures Trim(s) == s
  {
  }

  /** One leading blank, as `join(', ')` leaves before each later entry, is trimmed off. */
  lemma TrimAfterSpace(s: string)
    requires IsTrimmed(s)
    ensures Trim(" " + s) == s
  {
    assert (" " + s)[1..] == s;
  }

  /** A text is blank after trimming exactly when all of it is white space. */
  lemma TrimEmptyIff(s: string)
    ensures Trim(s) == [] <==> forall k :: 0 <= k < |s| ==> IsSpace(s[k])
  {
    var t := TrimStart(s);
    if t != [] {
      assert t[0] == s[|s| - |t|];
    }
  }

  // ---------------------------------------------------------------- split / join

  function FirstIndexOf(s: string, c: char): (i: nat)
    requires c in s
    ensures i < |s| && s[i] == c && c !in s[..i]
  {
    if s[0] == c then 0 else 1 + FirstIndexOf(s[1..], c)
  }

  /** `s.split(sep)` for a one-character separator. */
  function Split(s: string, sep: char): (r: seq<string>)
    ensures |r| >= 1
    ensures forall i :: 0 <= i < |r| ==> sep !in r[i]
    decreases |s|
  {
    if sep in s then
      var i := FirstIndexOf(s, sep);
      [s[..i]] + Split(s[i + 1..], sep)
    else [s]
  }

  /** `xs.join(glue)`. */
  function Join(xs: seq<string>, glue: string): string
  {
    if |xs| == 0 then ""
    else if |xs| == 1 then xs[0]
    else xs[0] + glue + Join(xs[1..], glue)
  }

  /** The first separator of `a + [sep] + b`, when `a` has none, ends `a`. */
  lemma FirstIndexAfter(a: string, sep: char, b: string)
    requires sep !in a
    ensures sep in a + [sep] + b && FirstIndexOf(a + [sep] + b, sep) == |a|
  {
    var s := a + [sep] + b;
    assert s[|a|] == sep;
    assert s[..|a|] == a;
  }

  /** Splitting at a first separator: the text before it, then the rest split. */
  lemma SplitStep(a: string, sep: char, b: string)
    requires sep !in a
    ensures Split(a + [sep] + b, sep) == [a] + Split(b, sep)
  {
    var s := a + [sep] + b;
    FirstIndexAfter(a, sep, b);
    assert s[..|a|] == a;
    assert s[|a| + 1..] == b;
  }

  /** Joining two or more entries: the first, the glue, then the rest joined. */
  lemma JoinStep(xs: seq<string>, glue: string)
    requires |xs| >= 2
    ensures Join(xs, glue) == xs[0] + glue + Join(xs[1..], glue)
  {
  }

  /** Splitting `p + xs.join(', ')` on commas gives back `p + xs[0]` and then each
      later entry with the one blank that `', '` left in front of it. */
  lemma {:induction false} SplitJoin(p: string, xs: seq<string>)
    requires |xs| >= 1
    requires ',' !in p
    requires forall i :: 0 <= i < |xs| ==> ',' !in xs[i]
    ensures var r := Split(p + Join(xs, ", "), ',');
      |r| == |xs| && r[0] == p + xs[0] && forall i :: 1 <= i < |xs| ==> r[i] == " " + xs[i]
    decreases |xs|
  {
    if |xs| == 1 {
      assert p + Join(xs, ", ") == p + xs[0];
      assert ',' !in p + xs[0];
    } else {
      var rest := Join(xs[1..], ", ");
      JoinStep(xs, ", ");
      Regroup(p, xs[0], rest);
      assert ',' !in p + xs[0];
      SplitStep(p + xs[0], ',', " " + rest);
      SplitJoin(" ", xs[1..]);
      PiecesCons(p + xs[0], xs, Split(" " + rest, ','));
    }
  }

  /** Moving the comma of `", "` to the end of the first part. */
  lemma Regroup(p: string, x: string, rest: string)
    ensures p + (x + ", " + rest) == (p + x) + [','] + (" " + rest)
  {
  }

  /** The first piece, then the pieces of the later entries. */
  lemma PiecesCons(first: string, xs: seq<string>, tail: seq<string>)
    requires |xs| >= 2 && |tail| == |xs| - 1
    requires tail[0] == " " + xs[1..][0]
    requires forall i :: 1 <= i < |xs| - 1 ==> tail[i] == " " + xs[1..][i]
    ensures var r := [first] + tail;
      |r| == |xs| && r[0] == first && forall i :: 1 <= i < |xs| ==> r[i] == " " + xs[i]
  {
    var r := [first] + tail;
    forall i | 1 <= i < |xs| ensures r[i] == " " + xs[i] {
      assert r[i] == tail[i - 1];
      assert xs[1..][i - 1] == xs[i];
    }
  }

  // ---------------------------------------------------------------- integers

  predicate IsDigit(c: char)
  {
    '0' <= c <= '9'
  }

  function DigitChar(d: int): (c: char)
    requires 0 <= d < 10
    ensures IsDigit(c)
  {
    ('0' as int + d) as char
  }

  /** Decimal digits of `n` with no leading zero. */
  function NatToString(n: nat): (r: string)
    ensures |r| >= 1
    ensures forall i :: 0 <= i < |r| ==> IsDigit(r[i])
  {
    if n < 10 then [DigitChar(n)] else NatToString(n / 10) + [DigitChar(n % 10)]
  }

  /** `String(n)` / `${n}` for an integer. */
  function IntToString(n: int): (r: string)
    ensures |r| >= 1
    ensures forall i :: 0 <= i < |r| ==> IsDigit(r[i]) || (i == 0 && r[i] == '-')
  {
    if n < 0 then "-" + NatToString(-n) else NatToString(n)
  }

  function DigitValue(c: char): (d: nat)
    requires IsDigit(c)
    ensures d < 10
  {
    c as int - '0' as int
  }

  /** The value of a run of decimal digits. */
  function DigitsValue(ds: string): nat
    requires forall i :: 0 <= i < |ds| ==> IsDigit(ds[i])
  {
    if ds == [] then 0 else DigitsValue(ds[..|ds| - 1]) * 10 + DigitValue(ds[|ds| - 1])
  }

  /** The number of leading decimal digits of `s`. */
  function DigitRun(s: string): (n: nat)
    ensures n <= |s|
    ensures forall i :: 0 <= i < n ==> IsDigit(s[i])
    ensures n < |s| ==> !IsDigit(s[n])
  {
    if |s| > 0 && IsDigit(s[0]) then 1 + DigitRun(s[1..]) else 0
  }

  /** The leading digits of `body` as a number, `None` when there are none. */
  function ParseDigits(body: string): (r: Option<int>)
    ensures r.Some? ==> r.value >= 0
    ensures r.None? <==> body == [] || !IsDigit(body[0])
  {
    var n := DigitRun(body);
    if n == 0 then None else Some(DigitsValue(body[..n]))
  }

  /** `parseInt(s)` in base 10: leading white space, an optional sign, then the
      longest run of digits; no digit at all is `NaN`, here `None`. */
  function ParseInt(s: string): Option<int>
  {
    ParseSigned(TrimStart(s))
  }

  /** The sign and digits `parseInt` reads once the leading blanks are skipped. */
  function ParseSigned(t: string): Option<int>
  {
    if |t| > 0 && t[0] == '-' then
      match ParseDigits(t[1..])
      case None => None
      case Some(v) => Some(-v)
    else if |t| > 0 && t[0] == '+' then ParseDigits(t[1..])
    else ParseDigits(t)
  }

  /** `parseInt(s) || 0`: `NaN` (and 0) become 0. */
  function ParseIntOrZero(s: string): int
  {
    ParseInt(s).GetOr(0)
  }

  lemma {:induction false} DigitsValueOfNat(n: nat)
    ensures DigitsValue(NatToString(n)) == n
    decreases n
  {
    if n >= 10 {
      DigitsValueOfNat(n / 10);
      var r := NatToString(n);
      assert r[..|r| - 1] == NatToString(n / 10);
    }
  }

  lemma {:induction false} DigitRunOfDigits(s: string, suffix: string)
    requires forall i :: 0 <= i < |s| ==> IsDigit(s[i])
    requires suffix == [] || !IsDigit(suffix[0])
    ensures DigitRun(s + suffix) == |s|
  {
    if |s| > 0 {
      assert (s + suffix)[1..] == s[1..] + suffix;
      DigitRunOfDigits(s[1..], suffix);
    } else {
      assert s + suffix == suffix;
    }
  }

  /** Digits, then anything that does not start with a digit, read as the digits' value. */
  lemma ParseDigitsOfDigits(ds: string, suffix: string)
    requires |ds| >= 1 && forall i :: 0 <= i < |ds| ==> IsDigit(ds[i])
    requires suffix == [] || !IsDigit(suffix[0])
    ensures ParseDigits(ds + suffix) == Some(DigitsValue(ds) as int)
  {
    DigitRunOfDigits(ds, suffix);
    assert (ds + suffix)[..|ds|] == ds;
  }

  lemma {:induction false} NegativeRoundTrip(m: nat, suffix: string)
    requires m > 0
    requires suffix == [] || !IsDigit(suffix[0])
    ensures ParseInt("-" + NatToString(m) + suffix) == Some(0 - m)
  {
    var ds := NatToString(m);
    DigitsValueOfNat(m);
    ParseDigitsOfDigits(ds, suffix);
    SignedDigits(ds + suffix, m);
    ConcatAssoc("-", ds, suffix);
  }

  lemma ConcatAssoc(a: string, b: string, c: string)
    ensures a + b + c == a + (b + c)
  {
  }

  /** `parseInt` skips a leading blank. */
  lemma ParseIntAfterSpace(t: string)
    ensures ParseInt(" " + t) == ParseInt(t)
  {
    TrimStartAfterSpace(t);
  }

  lemma TrimStartAfterSpace(t: string)
    ensures TrimStart(" " + t) == TrimStart(t)
  {
    assert (" " + t)[1..] == t;
  }

  /** A minus sign in front of digits that read as `v` reads as `-v`. */
  lemma SignedDigits(t: string, v: int)
    requires ParseDigits(t) == Some(v)
    ensures ParseInt("-" + t) == Some(-v)
  {
    var s := "-" + t;
    calc {
      ParseInt(s);
      ParseSigned(TrimStart(s));
    == { NoLeadingSpace(s); }
      ParseSigned(s);
      match ParseDigits(s[1..]) case None => None case Some(w) => Some(-w);
    == { assert s[1..] == t; }
      Some(-v);
    }
  }

  /** Text that starts with a minus sign has nothing to trim. */
  lemma NoLeadingSpace(s: string)
    requires |s| > 0 && s[0] == '-'
    ensures TrimStart(s) == s
  {
  }

  lemma {:induction false} NonNegativeRoundTrip(n: nat, suffix: string)
    requires suffix == [] || !IsDigit(suffix[0])
    ensures ParseInt(NatToString(n) + suffix) == Some(n)
  {
    var ds := NatToString(n);
    var s := ds + suffix;
    assert s[0] == ds[0] && IsDigit(s[0]) && !IsSpace(s[0]);
    assert TrimStart(s) == s;
    ParseDigitsOfDigits(ds, suffix);
    DigitsValueOfNat(n);
  }

  /** `parseInt` of an integer's text followed by text that does not start
      with a digit reads back the integer. */
  lemma ParseIntOfNumberThen(n: int, suffix: string)
    requires suffix == [] || !IsDigit(suffix[0])
    ensures ParseInt(IntToString(n) + suffix) == Some(n)
  {
    if n < 0 {
      NegativeRoundTrip(-n, suffix);
      assert IntToString(n) + suffix == "-" + NatToString(-n) + suffix;
    } else {
      NonNegativeRoundTrip(n, suffix);
    }
  }

  /** Reading back the decimal text of an integer gives the integer. */
  lemma IntToStringRoundTrip(n: int)
    ensures ParseInt(IntToString(n)) == Some(n)
  {
    ParseIntOfNumberThen(n, "");
    assert IntToString(n) + "" == IntToString(n);
  }

  /** `Number(s)` for texts that hold an integer: blank text is 0; an optional
      sign then digits, with white space around, is that integer; anything else
      is `NaN`, here `None`. */
  function StrictNumber(s: string): Option<int>
  {
    var t := Trim(s);
    if t == [] then Some(0)
    else
      var signed := t[0] == '-' || t[0] == '+';
      var body := if signed then t[1..] else t;
      if body != [] && DigitRun(body) == |body| then
        var v: int := DigitsValue(body);
        Some(if t[0] == '-' then -v else v)
      else None
  }
}
