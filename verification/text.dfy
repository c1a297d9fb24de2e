/**
  The handful of Python `str` operations the converters rely on, with
  Python's semantics: `strip()`, `upper()`, `startswith`, `replace`,
  `split(sep)`, `split()`, `sep.join`, `str(int)` and a number parser for
  the integer subset of `float()`.
 */
module Text {
  import opened Wrappers

  /** The code points for which Python's `str.isspace()` is true. */
  predicate IsSpace(c: char) {
    || c == ' '
    || ('\t' <= c <= '\r')
    || ('\U{1C}' <= c <= '\U{1F}')
    || c == '\U{85}' || c == '\U{A0}' || c == '\U{1680}'
    || ('\U{2000}' <= c <= '\U{200A}')
    || c == '\U{2028}' || c == '\U{2029}' || c == '\U{202F}'
    || c == '\U{205F}' || c == '\U{3000}'
  }

  predicate NoSpace(s: string) {
    forall k :: 0 <= k < |s| ==> !IsSpace(s[k])
  }

  predicate NoChar(s: string, c: char) {
    forall k :: 0 <= k < |s| ==> s[k] != c
  }

  predicate StartsWith(s: string, prefix: string) {
    |prefix| <= |s| && s[..|prefix|] == prefix
  }

  // ---------------------------------------------------------------------
  // strip()

  function TrimLeft(s: string): (r: string)
    ensures |r| <= |s| && r == s[|s| - |r|..]
    ensures r == [] || !IsSpace(r[0])
    ensures forall k :: 0 <= k < |s| - |r| ==> IsSpace(s[k])
  {
    if s != [] && IsSpace(s[0]) then TrimLeft(s[1..]) else s
  }

  function TrimRight(s: string): (r: string)
    ensures |r| <= |s| && r == s[..|r|]
    ensures r == [] || !IsSpace(r[|r| - 1])
    ensures forall k :: |r| <= k < |s| ==> IsSpace(s[k])
  {
    if s != [] && IsSpace(s[|s| - 1]) then TrimRight(s[..|s| - 1]) else s
  }

  /** Python's `s.strip()`: drop leading and trailing whitespace. */
  function Strip(s: string): (r: string) {
    TrimRight(TrimLeft(s))
  }

  /** A string that neither starts nor ends with whitespace is its own strip. */
  lemma {:induction false} StripUnpadded(s: string)
    requires s == [] || (!IsSpace(s[0]) && !IsSpace(s[|s| - 1]))
    ensures Strip(s) == s
  {
  }

  /** Leading whitespace does not change the stripped form. */
  lemma {:induction false} StripLeadingSpace(s: string)
    requires s != [] && IsSpace(s[0])
    ensures Strip(s) == Strip(s[1..])
  {
  }

  // ---------------------------------------------------------------------
  // upper()

  /**
    Python's `upper()` of one character, exact for every character whose
    upper-case form contains an ASCII character (ASCII letters and the
    seventeen non-ASCII characters below). Every other character is kept as
    it is: its true upper-case form consists of non-ASCII characters only,
    so comparisons against ASCII words come out the same.
   */
  function UpperChar(c: char): (r: string) {
    if c < '\U{80}' then
      if 'a' <= c <= 'z' then [(c as int - 32) as char] else [c]
    else UpperNonAscii(c)
  }

  /** The non-ASCII part of `UpperChar`. */
  function UpperNonAscii(c: char): (r: string) {
    if c == '\U{DF}' then "SS"
    else if c == '\U{131}' then "I"
    else if c == '\U{149}' then "\U{2BC}N"
    else if c == '\U{17F}' then "S"
    else if c == '\U{1F0}' then "J\U{30C}"
    else if c == '\U{1E96}' then "H\U{331}"
    else if c == '\U{1E97}' then "T\U{308}"
    else if c == '\U{1E98}' then "W\U{30A}"
    else if c == '\U{1E99}' then "Y\U{30A}"
    else if c == '\U{1E9A}' then "A\U{2BE}"
    else if c == '\U{FB00}' then "FF"
    else if c == '\U{FB01}' then "FI"
    else if c == '\U{FB02}' then "FL"
    else if c == '\U{FB03}' then "FFI"
    else if c == '\U{FB04}' then "FFL"
    else if c == '\U{FB05}' then "ST"
    else if c == '\U{FB06}' then "ST"
    else [c]
  }

  function Upper(s: string): (r: string) {
    if s == [] then [] else UpperChar(s[0]) + Upper(s[1..])
  }

  /** A text whose characters each upper-case to one character upper-cases character by character. */
  lemma {:induction false} UpperEach(s: string, t: string)
    requires |s| == |t| && forall k :: 0 <= k < |s| ==> UpperChar(s[k]) == [t[k]]
    ensures Upper(s) == t
    decreases |s|
  {
    if s != [] {
      UpperEach(s[1..], t[1..]);
      assert t == [t[0]] + t[1..];
    }
  }

  lemma {:induction false} UpperAppend(a: string, b: string)
    ensures Upper(a + b) == Upper(a) + Upper(b)
  {
    if a != [] {
      assert (a + b)[0] == a[0];
      assert (a + b)[1..] == a[1..] + b;
      UpperAppend(a[1..], b);
      assert Upper(a + b) == UpperChar(a[0]) + Upper(a[1..] + b);
    } else {
      assert a + b == b;
    }
  }

  // ---------------------------------------------------------------------
  // replace(pat, rep)

  /** Python's `s.replace(pat, rep)`: every non-overlapping occurrence, left to right. */
  function ReplaceAll(s: string, pat: string, rep: string): (r: string)
    requires |pat| > 0
    ensures NoChar(s, pat[0]) ==> r == s
    decreases |s|
  {
    if |s| < |pat| then s
    else if s[..|pat|] == pat then
      assert s[0] == s[..|pat|][0] == pat[0];
      rep + ReplaceAll(s[|pat|..], pat, rep)
    else
      assert NoChar(s, pat[0]) ==> NoChar(s[1..], pat[0]) by {
        if NoChar(s, pat[0]) {
          forall k | 0 <= k < |s| - 1 ensures s[1..][k] != pat[0] {
            assert s[1..][k] == s[k + 1];
          }
        }
      }
      [s[0]] + ReplaceAll(s[1..], pat, rep)
  }

  /** A prefix that cannot start an occurrence passes through unchanged. */
  lemma {:induction false} ReplaceAllKeepsPrefix(a: string, b: string, pat: string, rep: string)
    requires |pat| > 0 && NoChar(a, pat[0])
    ensures ReplaceAll(a + b, pat, rep) == a + ReplaceAll(b, pat, rep)
    decreases |a|
  {
    if a == [] {
      assert a + b == b;
    } else if |a + b| < |pat| {
      assert ReplaceAll(a + b, pat, rep) == a + b;
      assert ReplaceAll(b, pat, rep) == b;
    } else {
      var s, t := a + b, ReplaceAll(b, pat, rep);
      NoCharTail(a, pat[0]);
      assert s[0] == a[0] && s[1..] == a[1..] + b;
      calc {
        ReplaceAll(s, pat, rep);
      == { ReplaceAllStep(s, pat, rep); }
        [a[0]] + ReplaceAll(a[1..] + b, pat, rep);
      == { ReplaceAllKeepsPrefix(a[1..], b, pat, rep); }
        [a[0]] + (a[1..] + t);
      == { assert a == [a[0]] + a[1..]; }
        a + t;
      }
    }
  }

  lemma {:induction false} NoCharTail(a: string, c: char)
    requires a != [] && NoChar(a, c)
    ensures a[0] != c && NoChar(a[1..], c)
  {
    forall k | 0 <= k < |a| - 1 ensures a[1..][k] != c {
      assert a[1..][k] == a[k + 1];
    }
  }

  /** A first character that cannot start an occurrence is copied. */
  lemma {:induction false} ReplaceAllStep(s: string, pat: string, rep: string)
    requires |pat| > 0 && |s| >= |pat| && s[0] != pat[0]
    ensures ReplaceAll(s, pat, rep) == [s[0]] + ReplaceAll(s[1..], pat, rep)
  {
    assert s[..|pat|] != pat by { assert s[..|pat|][0] == s[0]; }
  }

  /** An occurrence at the front is replaced. */
  lemma {:induction false} ReplaceAllAtFront(b: string, pat: string, rep: string)
    requires |pat| > 0
    ensures ReplaceAll(pat + b, pat, rep) == rep + ReplaceAll(b, pat, rep)
  {
    assert (pat + b)[..|pat|] == pat;
    assert (pat + b)[|pat|..] == b;
  }

  // ---------------------------------------------------------------------
  // split(sep) and sep.join(parts)

  /** `sep` occurs in `s` at position `i`. */
  predicate OccursAt(s: string, sep: string, i: int) {
    0 <= i && i + |sep| <= |s| && s[i..i + |sep|] == sep
  }

  /** The first position at or after `from` where `sep` occurs. */
  function IndexFrom(s: string, sep: string, from: nat): (r: Option<nat>)
    requires |sep| > 0
    ensures r.Some? ==> from <= r.value && r.value + |sep| <= |s|
    decreases |s| - from
  {
    if from + |sep| > |s| then None
    else if s[from..from + |sep|] == sep then Some(from)
    else IndexFrom(s, sep, from + 1)
  }

  /** `IndexFrom` finds an occurrence, and the first one at or after `from`. */
  lemma {:induction false} IndexFromFirst(s: string, sep: string, from: nat)
    requires |sep| > 0
    ensures IndexFrom(s, sep, from).Some? ==> OccursAt(s, sep, IndexFrom(s, sep, from).value)
    ensures IndexFrom(s, sep, from).Some? ==>
      forall j :: from <= j < IndexFrom(s, sep, from).value ==> !OccursAt(s, sep, j)
    ensures IndexFrom(s, sep, from).None? ==> forall j :: from <= j ==> !OccursAt(s, sep, j)
    decreases |s| - from
  {
    if from + |sep| <= |s| && s[from..from + |sep|] != sep {
      IndexFromFirst(s, sep, from + 1);
    }
  }

  /** Python's `sep.join(parts)`. */
  function Join(parts: seq<string>, sep: string): (r: string) {
    if parts == [] then ""
    else if |parts| == 1 then parts[0]
    else parts[0] + sep + Join(parts[1..], sep)
  }

  /** Python's `s.split(sep)` for a non-empty separator. */
  function SplitOn(s: string, sep: string): (parts: seq<string>)
    requires |sep| > 0
    ensures |parts| >= 1
    decreases |s|
  {
    match IndexFrom(s, sep, 0)
    case None => [s]
    case Some(i) => [s[..i]] + SplitOn(s[i + |sep|..], sep)
  }

  /** Joining the pieces with the separator gives the text back, and no piece holds the separator. */
  lemma {:induction false} SplitOnJoin(s: string, sep: string)
    requires |sep| > 0
    ensures Join(SplitOn(s, sep), sep) == s
    ensures forall i :: 0 <= i < |SplitOn(s, sep)| ==> forall j :: !OccursAt(SplitOn(s, sep)[i], sep, j)
    decreases |s|
  {
    match IndexFrom(s, sep, 0)
    case None =>
      IndexFromFirst(s, sep, 0);
    case Some(i) =>
      var head := s[..i];
      var tail := s[i + |sep|..];
      var rest := SplitOn(tail, sep);
      IndexFromFirst(s, sep, 0);
      SplitOnJoin(tail, sep);
      assert SplitOn(s, sep) == [head] + rest;
      assert forall j :: !OccursAt(head, sep, j) by {
        forall j ensures !OccursAt(head, sep, j) {
          if OccursAt(head, sep, j) {
            assert s[j..j + |sep|] == head[j..j + |sep|];
            assert OccursAt(s, sep, j);
          }
        }
      }
      forall k | 0 <= k < |[head] + rest| ensures forall j :: !OccursAt(([head] + rest)[k], sep, j) {
        if k > 0 { assert ([head] + rest)[k] == rest[k - 1]; }
      }
      assert ([head] + rest)[1..] == rest;
      assert s == head + sep + tail;
  }

  /** The piece before the first separator is split off first. */
  lemma {:induction false} SplitOnFirst(a: string, sep: string, b: string)
    requires |sep| > 0 && NoChar(a, sep[0])
    ensures SplitOn(a + sep + b, sep) == [a] + SplitOn(b, sep)
  {
    var s := a + sep + b;
    assert OccursAt(s, sep, |a|) by { assert s[|a|..|a| + |sep|] == sep; }
    forall j | 0 <= j < |a| ensures !OccursAt(s, sep, j) {
      assert s[j] == a[j] != sep[0];
      if j + |sep| <= |s| {
        assert s[j..j + |sep|][0] == s[j];
      }
    }
    IndexFromFirst(s, sep, 0);
    assert IndexFrom(s, sep, 0) == Some(|a|);
    assert s[..|a|] == a;
    assert s[|a| + |sep|..] == b;
  }

  /** A string without the separator's first character is one piece. */
  lemma {:induction false} SplitOnNone(a: string, sep: string)
    requires |sep| > 0 && NoChar(a, sep[0])
    ensures SplitOn(a, sep) == [a]
  {
    forall j | 0 <= j < |a| ensures !OccursAt(a, sep, j) {
      assert a[j] != sep[0];
      if j + |sep| <= |a| {
        assert a[j..j + |sep|][0] == a[j];
      }
    }
    IndexFromFirst(a, sep, 0);
  }

  /** A string in which the separator never occurs is one piece. */
  lemma {:induction false} SplitOnAbsent(s: string, sep: string)
    requires |sep| > 0 && forall j :: !OccursAt(s, sep, j)
    ensures SplitOn(s, sep) == [s]
  {
    IndexFromFirst(s, sep, 0);
  }

  // ---------------------------------------------------------------------
  // split()

  /** End of the word that starts at `from`: the next whitespace or the end. */
  function WordEnd(s: string, from: nat): (r: nat)
    requires from <= |s|
    ensures from <= r <= |s|
    ensures NoSpace(s[from..r])
    ensures r < |s| ==> IsSpace(s[r])
    decreases |s| - from
  {
    if from == |s| || IsSpace(s[from]) then from else WordEnd(s, from + 1)
  }

  /** Python's `s.split()`: the maximal runs of non-whitespace, in order. */
  function SplitWs(s: string): (words: seq<string>)
    ensures Words(words)
    decreases |s|
  {
    var t := TrimLeft(s);
    if t == [] then []
    else
      var n := WordEnd(t, 0);
      assert n > 0 && t[..n] == t[0..n];
      var rest := SplitWs(t[n..]);
      WordsCons(t[..n], rest);
      [t[..n]] + rest
  }

  /** Every entry is a non-empty run of non-whitespace. */
  predicate Words(words: seq<string>) {
    forall i :: 0 <= i < |words| ==> |words[i]| > 0 && NoSpace(words[i])
  }

  lemma {:induction false} WordsCons(w: string, rest: seq<string>)
    requires |w| > 0 && NoSpace(w) && Words(rest)
    ensures Words([w] + rest)
  {
    var words := [w] + rest;
    forall i | 0 <= i < |words| ensures |words[i]| > 0 && NoSpace(words[i]) {
      if i > 0 { assert words[i] == rest[i - 1]; }
    }
  }

  /** A single word splits to itself. */
  lemma {:induction false} SplitWsWord(w: string)
    requires |w| > 0 && NoSpace(w)
    ensures SplitWs(w) == [w]
  {
    assert TrimLeft(w) == w;
    assert WordEnd(w, 0) == |w| by { WordEndOfWord(w, 0); }
    assert w[..|w|] == w;
    assert w[|w|..] == [];
    assert SplitWs([]) == [];
  }

  /** A word followed by one space is split off first. */
  lemma {:induction false} SplitWsFirst(w: string, rest: string)
    requires |w| > 0 && NoSpace(w)
    ensures SplitWs(w + " " + rest) == [w] + SplitWs(rest)
  {
    var s := w + " " + rest;
    assert TrimLeft(s) == s by { assert s[0] == w[0]; }
    WordEndBeforeSpace(s, |w|, 0);
    assert s[..|w|] == w;
    var t := s[|w|..];
    assert t == " " + rest;
    assert TrimLeft(t) == TrimLeft(rest) by { assert t[1..] == rest; }
    assert SplitWs(t) == SplitWs(rest) by {
      SplitWsLeadingSpace(t);
    }
  }

  lemma {:induction false} WordEndOfWord(w: string, from: nat)
    requires from <= |w| && NoSpace(w)
    ensures WordEnd(w, from) == |w|
    decreases |w| - from
  {
    if from < |w| {
      WordEndOfWord(w, from + 1);
    }
  }

  lemma {:induction false} WordEndBeforeSpace(s: string, n: nat, from: nat)
    requires from <= n < |s| && IsSpace(s[n])
    requires forall k :: from <= k < n ==> !IsSpace(s[k])
    ensures WordEnd(s, from) == n
    decreases n - from
  {
    if from < n {
      WordEndBeforeSpace(s, n, from + 1);
    }
  }

  lemma {:induction false} SplitWsLeadingSpace(t: string)
    requires t != [] && IsSpace(t[0])
    ensures SplitWs(t) == SplitWs(t[1..])
  {
    assert TrimLeft(t) == TrimLeft(t[1..]);
  }

  // ---------------------------------------------------------------------
  // str(int) and the integer subset of float()

  function DigitChar(d: nat): (c: char)
    requires d < 10
    ensures '0' <= c <= '9' && c as int - '0' as int == d
  {
    (d + '0' as int) as char
  }

  predicate IsDigit(c: char) {
    '0' <= c <= '9'
  }

  /** Python's `str(n)` for a natural number: decimal digits, no padding. */
  function ShowNat(n: nat): (r: string)
    ensures |r| > 0 && forall k :: 0 <= k < |r| ==> IsDigit(r[k])
  {
    if n < 10 then [DigitChar(n)] else ShowNat(n / 10) + [DigitChar(n % 10)]
  }

  /** Python's `str(n)` for an integer. */
  function ShowInt(n: int): (r: string)
    ensures |r| > 0 && (r[0] == '-' || IsDigit(r[0])) && IsDigit(r[|r| - 1])
    ensures forall k :: 0 <= k < |r| ==> r[k] == '-' || IsDigit(r[k])
  {
    if n < 0 then "-" + ShowNat(-n) else ShowNat(n)
  }

  /** Decimal digits to a number; `None` on an empty string or a non-digit. */
  function ParseNat(s: string): (r: Option<nat>) {
    if s == [] || !IsDigit(s[|s| - 1]) then None
    else
      var d := s[|s| - 1] as int - '0' as int;
      if |s| == 1 then Some(d)
      else match ParseNat(s[..|s| - 1])
        case None => None
        case Some(m) => Some(10 * m + d)
  }

  /**
    The integer subset of Python's `float()`: an optional sign and ASCII
    decimal digits. `None` for every other text, including the fractions,
    exponents, `inf`/`nan` and digit separators that `float()` accepts but
    numbers in this model cannot represent.
   */
  function ParseInt(s: string): (r: Option<int>) {
    if s != [] && s[0] == '-' then
      match ParseNat(s[1..])
      case None => None
      case Some(n) => Some(0 - n as int)
    else if s != [] && s[0] == '+' then ParseNat(s[1..])
    else ParseNat(s)
  }

  /** Every non-empty run of digits reads as a number. */
  lemma {:induction false} ParseNatDigits(s: string)
    requires s != [] && forall k :: 0 <= k < |s| ==> IsDigit(s[k])
    ensures ParseNat(s).Some?
    decreases |s|
  {
    if |s| > 1 {
      ParseNatDigits(s[..|s| - 1]);
    }
  }

  lemma {:induction false} ParseShowNat(n: nat)
    ensures ParseNat(ShowNat(n)) == Some(n)
  {
    if n >= 10 {
      ParseShowNat(n / 10);
      var s := ShowNat(n);
      assert s[..|s| - 1] == ShowNat(n / 10);
    }
  }

  /** Printing an integer and parsing it back gives the integer. */
  lemma {:induction false} ParseShowInt(n: int)
    ensures ParseInt(ShowInt(n)) == Some(n)
  {
    if n < 0 {
      ParseShowNat(-n);
      assert ("-" + ShowNat(-n))[1..] == ShowNat(-n);
    } else {
      ParseShowNat(n);
    }
  }
}
