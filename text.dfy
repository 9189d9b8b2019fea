/**
 * The string primitives the bot applies to chat text: Python's `str.strip()`,
 * `str.split()`, `str.split(sep)`, `str.upper()`, `int(...)` and `float(...)`,
 * each restricted to the part of its grammar the bot's inputs exercise.
 */
module Text {
  import opened Wrappers

  /** The characters Python's `str.isspace()` accepts; `split()` and `strip()` cut on them. */
  predicate IsSpace(c: char) {
    c == ' ' || ('\t' <= c <= '\r') || ('\U{1C}' <= c <= '\U{1F}')
    || c == '\U{85}' || c == '\U{A0}' || c == '\U{1680}'
    || ('\U{2000}' <= c <= '\U{200A}')
    || c == '\U{2028}' || c == '\U{2029}' || c == '\U{202F}' || c == '\U{205F}' || c == '\U{3000}'
  }

  predicate NoSpace(s: string) {
    forall i | 0 <= i < |s| :: !IsSpace(s[i])
  }

  predicate AllSpace(s: string) {
    forall i | 0 <= i < |s| :: IsSpace(s[i])
  }

  /** A whitespace-free, non-empty word: what `split()` produces. */
  predicate IsWord(s: string) {
    s != [] && NoSpace(s)
  }

  // ---------------------------------------------------------------- strip

  /** `lstrip()`: drops the leading whitespace and keeps the rest as it is. */
  function TrimStart(s: string): (r: string)
    ensures |r| <= |s| && r == s[|s| - |r|..]
    ensures AllSpace(s[..|s| - |r|])
    ensures r != [] ==> !IsSpace(r[0])
  {
    if s != [] && IsSpace(s[0]) then TrimStart(s[1..]) else s
  }

  /** `rstrip()`: drops the trailing whitespace and keeps the rest as it is. */
  function TrimEnd(s: string): (r: string)
    ensures |r| <= |s| && r == s[..|r|]
    ensures AllSpace(s[|r|..])
    ensures r != [] ==> !IsSpace(r[|r| - 1])
  {
    if s != [] && IsSpace(s[|s| - 1]) then
      var r := TrimEnd(s[..|s| - 1]);
      assert s[|r|..] == s[..|s| - 1][|r|..] + [s[|s| - 1]];
      r
    else
      s
  }

  /** `strip()`: what is left once both whitespace ends are cut off. */
  function Strip(s: string): (r: string)
    ensures r != [] ==> !IsSpace(r[0]) && !IsSpace(r[|r| - 1])
  {
    var t := TrimStart(s);
    var r := TrimEnd(t);
    assert r != [] ==> r[0] == t[0];
    r
  }

  /** The number of leading whitespace characters `strip()` removes. */
  function Lead(s: string): nat
  {
    |s| - |TrimStart(s)|
  }

  lemma StripSlice(s: string)
    ensures Lead(s) + |Strip(s)| <= |s|
    ensures Strip(s) == s[Lead(s)..Lead(s) + |Strip(s)|]
  {
    var t := TrimStart(s);
    var r := TrimEnd(t);
    assert t == s[Lead(s)..];
    assert r == t[..|r|];
  }

  lemma StripTail(s: string)
    ensures Lead(s) + |Strip(s)| <= |s|
    ensures AllSpace(s[Lead(s) + |Strip(s)|..])
  {
    var t := TrimStart(s);
    var r := TrimEnd(t);
    assert t == s[Lead(s)..];
    assert s[Lead(s) + |r|..] == t[|r|..];
  }

  /** Strip keeps a contiguous slice of its input and removes only whitespace, on both sides. */
  lemma StripIsTrimmedSlice(s: string)
    ensures Lead(s) + |Strip(s)| <= |s|
    ensures Strip(s) == s[Lead(s)..Lead(s) + |Strip(s)|]
    ensures AllSpace(s[..Lead(s)])
    ensures AllSpace(s[Lead(s) + |Strip(s)|..])
  {
    StripSlice(s);
    StripTail(s);
  }

  /** A string without whitespace at either end is its own strip. */
  lemma StripTrimmed(s: string)
    requires s == [] || (!IsSpace(s[0]) && !IsSpace(s[|s| - 1]))
    ensures Strip(s) == s
  {
  }

  lemma StripIdempotent(s: string)
    ensures Strip(Strip(s)) == Strip(s)
  {
    StripTrimmed(Strip(s));
  }

  // ---------------------------------------------------------------- split()

  /**
   * `split()` with no separator, scanning left to right; `cur` is the word
   * being read. Runs of whitespace separate words and no empty word is kept.
   */
  function SplitFrom(s: string, cur: string): (r: seq<string>)
    requires NoSpace(cur)
    ensures forall k | 0 <= k < |r| :: IsWord(r[k])
    decreases |s|
  {
    if s == [] then
      (if cur == [] then [] else [cur])
    else if IsSpace(s[0]) then
      (if cur == [] then SplitFrom(s[1..], []) else [cur] + SplitFrom(s[1..], []))
    else
      SplitFrom(s[1..], cur + [s[0]])
  }

  /** `split()`: the whitespace-separated words of the text. */
  function Split(s: string): (r: seq<string>)
    ensures forall k | 0 <= k < |r| :: IsWord(r[k])
  {
    SplitFrom(s, [])
  }

  /** The words joined with single spaces, the inverse of `Split` on words. */
  function Unwords(ws: seq<string>): string
  {
    if ws == [] then []
    else if |ws| == 1 then ws[0]
    else ws[0] + " " + Unwords(ws[1..])
  }

  /** Reading a word continues the current word. */
  lemma {:induction false} SplitFromWord(w: string, rest: string, cur: string)
    requires NoSpace(w) && NoSpace(cur)
    ensures SplitFrom(w + rest, cur) == SplitFrom(rest, cur + w)
    decreases |w|
  {
    if w == [] {
      assert w + rest == rest;
      assert cur + w == cur;
    } else {
      assert (w + rest)[0] == w[0];
      assert (w + rest)[1..] == w[1..] + rest;
      SplitFromWord(w[1..], rest, cur + [w[0]]);
      assert cur + [w[0]] + w[1..] == cur + w;
    }
  }

  /** Splitting words joined by single spaces gives the words back. */
  lemma {:induction false} SplitUnwords(ws: seq<string>)
    requires forall k | 0 <= k < |ws| :: IsWord(ws[k])
    ensures Split(Unwords(ws)) == ws
    decreases |ws|
  {
    if ws == [] {
    } else if |ws| == 1 {
      SplitFromWord(ws[0], [], []);
      assert ws[0] + [] == ws[0];
      assert [] + ws[0] == ws[0];
    } else {
      var w := ws[0];
      var tail := Unwords(ws[1..]);
      assert Unwords(ws) == w + (" " + tail);
      SplitFromWord(w, " " + tail, []);
      assert [] + w == w;
      assert (" " + tail)[0] == ' ';
      assert (" " + tail)[1..] == tail;
      assert SplitFrom(" " + tail, w) == [w] + SplitFrom(tail, []);
      SplitUnwords(ws[1..]);
      assert [w] + ws[1..] == ws;
    }
  }

  // ---------------------------------------------------------------- split(sep)

  /** `split(sep)` with a one-character separator: empty fields are kept. */
  function SplitOnFrom(s: string, sep: char, cur: string): (r: seq<string>)
    requires sep !in cur
    ensures |r| >= 1
    ensures forall k | 0 <= k < |r| :: sep !in r[k]
    decreases |s|
  {
    if s == [] then [cur]
    else if s[0] == sep then [cur] + SplitOnFrom(s[1..], sep, [])
    else SplitOnFrom(s[1..], sep, cur + [s[0]])
  }

  function SplitOn(s: string, sep: char): (r: seq<string>)
    ensures |r| >= 1
    ensures forall k | 0 <= k < |r| :: sep !in r[k]
  {
    SplitOnFrom(s, sep, [])
  }

  /** `sep.join(fields)`. */
  function JoinOn(fs: seq<string>, sep: char): string
  {
    if fs == [] then []
    else if |fs| == 1 then fs[0]
    else fs[0] + [sep] + JoinOn(fs[1..], sep)
  }

  lemma {:induction false} SplitOnFromJoin(s: string, sep: char, cur: string)
    requires sep !in cur
    ensures JoinOn(SplitOnFrom(s, sep, cur), sep) == cur + s
    decreases |s|
  {
    if s == [] {
    } else if s[0] == sep {
      var rest := SplitOnFrom(s[1..], sep, []);
      SplitOnFromJoin(s[1..], sep, []);
      assert ([cur] + rest)[1..] == rest;
      assert cur + [sep] + ([] + s[1..]) == cur + s;
    } else {
      SplitOnFromJoin(s[1..], sep, cur + [s[0]]);
      assert cur + [s[0]] + s[1..] == cur + s;
    }
  }

  /** Joining the fields with the separator rebuilds the text. */
  lemma JoinSplitOn(s: string, sep: char)
    ensures JoinOn(SplitOn(s, sep), sep) == s
  {
    SplitOnFromJoin(s, sep, []);
  }

  lemma {:induction false} SplitOnFromField(f: string, rest: string, sep: char, cur: string)
    requires sep !in f && sep !in cur
    ensures SplitOnFrom(f + rest, sep, cur) == SplitOnFrom(rest, sep, cur + f)
    decreases |f|
  {
    if f == [] {
      assert f + rest == rest;
      assert cur + f == cur;
    } else {
      assert (f + rest)[0] == f[0];
      assert (f + rest)[1..] == f[1..] + rest;
      SplitOnFromField(f[1..], rest, sep, cur + [f[0]]);
      assert cur + [f[0]] + f[1..] == cur + f;
    }
  }

  /** Splitting joined fields that do not contain the separator gives the fields back. */
  lemma {:induction false} SplitOnJoin(fs: seq<string>, sep: char)
    requires fs != []
    requires forall k | 0 <= k < |fs| :: sep !in fs[k]
    ensures SplitOn(JoinOn(fs, sep), sep) == fs
    decreases |fs|
  {
    if |fs| == 1 {
      SplitOnFromField(fs[0], [], sep, []);
      assert fs[0] + [] == fs[0];
      assert [] + fs[0] == fs[0];
    } else {
      var f := fs[0];
      var tail := JoinOn(fs[1..], sep);
      assert JoinOn(fs, sep) == f + ([sep] + tail);
      SplitOnFromField(f, [sep] + tail, sep, []);
      assert [] + f == f;
      assert ([sep] + tail)[1..] == tail;
      SplitOnJoin(fs[1..], sep);
      assert [f] + fs[1..] == fs;
    }
  }

  // ---------------------------------------------------------------- upper()

  predicate IsLower(c: char) {
    'a' <= c <= 'z'
  }

  /** `upper()` on one character, for the ASCII letters. */
  function UpperChar(c: char): char {
    if IsLower(c) then (c as int - 32) as char else c
  }

  function Upper(s: string): (r: string)
    ensures |r| == |s|
    ensures forall i | 0 <= i < |s| :: r[i] == UpperChar(s[i])
  {
    if s == [] then [] else [UpperChar(s[0])] + Upper(s[1..])
  }

  /** Upper-casing leaves no lower-case letter and touches nothing else. */
  lemma UpperMeaning(s: string)
    ensures forall i | 0 <= i < |s| :: !IsLower(Upper(s)[i])
    ensures forall i | 0 <= i < |s| :: !IsLower(s[i]) ==> Upper(s)[i] == s[i]
    ensures forall i | 0 <= i < |s| :: IsSpace(Upper(s)[i]) <==> IsSpace(s[i])
  {
  }

  lemma UpperIdempotent(s: string)
    ensures Upper(Upper(s)) == Upper(s)
  {
    assert forall i | 0 <= i < |s| :: Upper(Upper(s))[i] == Upper(s)[i];
  }

  /** Stripping and upper-casing commute, because upper-casing never turns a character into or out of whitespace. */
  lemma {:induction false} StripUpperCommute(s: string)
    ensures Strip(Upper(s)) == Upper(Strip(s))
  {
    TrimStartUpper(s);
    TrimEndUpper(TrimStart(s));
  }

  lemma UpperCharSpace(c: char)
    ensures IsSpace(UpperChar(c)) <==> IsSpace(c)
  {
    if IsLower(c) {
      assert 'A' <= UpperChar(c) <= 'Z';
    }
  }

  lemma {:induction false} TrimStartUpper(s: string)
    ensures TrimStart(Upper(s)) == Upper(TrimStart(s))
    decreases |s|
  {
    if s != [] {
      var u := Upper(s);
      UpperCharSpace(s[0]);
      assert u[0] == UpperChar(s[0]);
      if IsSpace(s[0]) {
        assert u[1..] == Upper(s[1..]);
        TrimStartUpper(s[1..]);
      }
    }
  }

  /** Upper-casing a prefix is the prefix of the upper-cased text. */
  lemma UpperPrefix(s: string, n: nat)
    requires n <= |s|
    ensures Upper(s[..n]) == Upper(s)[..n]
  {
  }

  lemma {:induction false} TrimEndUpper(s: string)
    ensures TrimEnd(Upper(s)) == Upper(TrimEnd(s))
    decreases |s|
  {
    if s != [] {
      var u := Upper(s);
      UpperCharSpace(s[|s| - 1]);
      assert u[|s| - 1] == UpperChar(s[|s| - 1]);
      if IsSpace(s[|s| - 1]) {
        UpperPrefix(s, |s| - 1);
        TrimEndUpper(s[..|s| - 1]);
      }
    }
  }

  // ---------------------------------------------------------------- int()

  predicate IsDigit(c: char) {
    '0' <= c <= '9'
  }

  predicate AllDigits(s: string) {
    forall i | 0 <= i < |s| :: IsDigit(s[i])
  }

  function DigitValue(c: char): nat
    requires IsDigit(c)
  {
    c as int - '0' as int
  }

  /** The decimal value of a run of digits; the empty run is 0. */
  function DigitsValue(s: string): nat
    requires AllDigits(s)
  {
    if s == [] then 0 else DigitsValue(s[..|s| - 1]) * 10 + DigitValue(s[|s| - 1])
  }

  function ParseNat(s: string): Option<nat>
  {
    if s != [] && AllDigits(s) then Some(DigitsValue(s)) else None
  }

  predicate IsSign(c: char) {
    c == '+' || c == '-'
  }

  /** `int(s)` for an optional sign followed by ASCII digits; `None` stands for ValueError. */
  function ParseInt(s: string): (r: Option<int>)
    ensures r.Some? ==> s != [] && var b := if IsSign(s[0]) then s[1..] else s; b != [] && AllDigits(b)
    ensures r.Some? && s[0] == '-' ==> r.value <= 0
    ensures r.Some? && s[0] != '-' ==> r.value >= 0
  {
    if s != [] && IsSign(s[0]) then
      match ParseNat(s[1..])
      case None => None
      case Some(n) => var v: int := if s[0] == '-' then -(n as int) else n; Some(v)
    else
      match ParseNat(s)
      case None => None
      case Some(n) => Some(n)
  }

  function DigitChar(d: nat): (c: char)
    requires d < 10
    ensures IsDigit(c) && DigitValue(c) == d
  {
    ('0' as int + d) as char
  }

  /** The decimal rendering of an integer, as `str(n)` or an f-string gives it. */
  function ShowNat(n: nat): (r: string)
    ensures r != [] && AllDigits(r)
  {
    if n < 10 then [DigitChar(n)] else ShowNat(n / 10) + [DigitChar(n % 10)]
  }

  function ShowInt(i: int): (r: string)
  {
    if i < 0 then "-" + ShowNat(-i) else ShowNat(i)
  }

  lemma {:induction false} ShowNatValue(n: nat)
    ensures DigitsValue(ShowNat(n)) == n
  {
    if n >= 10 {
      var s := ShowNat(n);
      assert s[..|s| - 1] == ShowNat(n / 10);
      ShowNatValue(n / 10);
    }
  }

  /** Reading back the rendering of an integer gives the integer. */
  lemma ParseShowInt(i: int)
    ensures ParseInt(ShowInt(i)) == Some(i)
  {
    if i < 0 {
      var d := ShowNat(-i);
      ShowNatValue(-i);
      assert ParseNat(d) == Some(-i);
      assert ("-" + d)[0] == '-' && ("-" + d)[1..] == d;
    } else {
      var d := ShowNat(i);
      ShowNatValue(i);
      assert ParseNat(d) == Some(i);
      assert IsDigit(d[0]) && !IsSign(d[0]);
    }
  }

  /** A rendered integer is a single word. */
  lemma ShowIntIsWord(i: int)
    ensures IsWord(ShowInt(i))
    ensures '_' !in ShowInt(i)
  {
    var s := ShowInt(i);
    assert forall k | 0 <= k < |s| :: IsDigit(s[k]) || s[k] == '-';
  }

  // ---------------------------------------------------------------- float()

  /** The position of the first '.', or |s| when there is none. */
  function DotIndex(s: string): (k: nat)
    ensures k <= |s|
    ensures k < |s| ==> s[k] == '.'
    ensures forall i | 0 <= i < k :: s[i] != '.'
  {
    if s == [] then 0
    else if s[0] == '.' then 0
    else 1 + DotIndex(s[1..])
  }

  function Pow10(n: nat): (p: nat)
    ensures p >= 1
  {
    if n == 0 then 1 else 10 * Pow10(n - 1)
  }

  /** `float(s)` without sign: digits, optionally a '.', then optionally more digits, with a digit somewhere. */
  function ParseUnsignedDecimal(s: string): Option<real>
  {
    var k := DotIndex(s);
    if k == |s| then
      (if s != [] && AllDigits(s) then Some(DigitsValue(s) as real) else None)
    else
      var whole, frac := s[..k], s[k + 1..];
      if AllDigits(whole) && AllDigits(frac) && (whole != [] || frac != []) then
        Some(DigitsValue(whole) as real + DigitsValue(frac) as real / Pow10(|frac|) as real)
      else
        None
  }

  /** `float(s)` for an optional sign and a plain decimal numeral; `None` stands for ValueError. */
  function ParseDecimal(s: string): (r: Option<real>)
    ensures r.Some? ==> s != []
    ensures r.Some? && s[0] == '-' ==> r.value <= 0.0
    ensures r.Some? && s[0] != '-' ==> r.value >= 0.0
  {
    if s != [] && IsSign(s[0]) then
      match ParseUnsignedDecimal(s[1..])
      case None => None
      case Some(x) => Some(if s[0] == '-' then -x else x)
    else
      ParseUnsignedDecimal(s)
  }

  /** Every text `int()` accepts, `float()` accepts too, with the same value. */
  lemma ParseDecimalOfInt(s: string, n: int)
    requires ParseInt(s) == Some(n)
    ensures ParseDecimal(s) == Some(n as real)
  {
    var t := if IsSign(s[0]) then s[1..] else s;
    assert t != [] && AllDigits(t);
    assert !IsDigit('.');
    assert DotIndex(t) == |t|;
  }
}
