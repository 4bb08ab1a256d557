/** Character classes and string operations of Python's standard library that the
    command parsers, the temporal rewriter and the vector parser rely on.
    Every class is restricted to ASCII. */
module Text {
  import opened Outcomes

  /** Python's `\s` and `str.isspace` on ASCII: tab, line feed, vertical tab, form
      feed, carriage return, the separators 0x1C-0x1F and the space. */
  predicate IsSpace(c: char) {
    c == ' ' || ('\t' <= c <= '\r') || ('\U{1C}' <= c <= '\U{1F}')
  }

  predicate IsDigit(c: char) {
    '0' <= c <= '9'
  }

  /** Python's `\w` on ASCII: letters, digits and the underscore. */
  predicate IsWordChar(c: char) {
    ('a' <= c <= 'z') || ('A' <= c <= 'Z') || IsDigit(c) || c == '_'
  }

  predicate AllDigits(s: string) {
    forall k :: 0 <= k < |s| ==> IsDigit(s[k])
  }

  /** `str.isdigit()`: at least one character, and all of them digits. */
  predicate IsDigitString(s: string) {
    |s| > 0 && AllDigits(s)
  }

  predicate StartsWith(s: string, prefix: string) {
    |prefix| <= |s| && s[..|prefix|] == prefix
  }

  // ---------------------------------------------------------------------------
  // Decimal numbers (`int(text)`)

  /** The value of a string of decimal digits, read most significant digit first. */
  function DecimalValue(s: string): nat
    requires AllDigits(s)
    decreases |s|
  {
    if s == [] then 0 else 10 * DecimalValue(s[..|s| - 1]) + (s[|s| - 1] as int - '0' as int)
  }

  function DigitChar(d: nat): (c: char)
    requires d < 10
    ensures IsDigit(c) && c as int - '0' as int == d
  {
    ('0' as int + d) as char
  }

  /** The shortest decimal spelling of `n`; the reference DecimalValue is checked against. */
  function ShowNat(n: nat): (s: string)
    ensures IsDigitString(s)
    ensures |s| > 1 ==> s[0] != '0'
    decreases n
  {
    if n < 10 then [DigitChar(n)] else ShowNat(n / 10) + [DigitChar(n % 10)]
  }

  /** Reading back a spelled-out number gives the number. */
  lemma {:induction false} DecimalValueOfShowNat(n: nat)
    ensures DecimalValue(ShowNat(n)) == n
    decreases n
  {
    var s := ShowNat(n);
    if n >= 10 {
      DecimalValueOfShowNat(n / 10);
      assert s[..|s| - 1] == ShowNat(n / 10);
    }
  }

  /** `k` zero digits. */
  function Zeros(k: nat): (z: string)
    ensures |z| == k && AllDigits(z)
    ensures forall c :: c in z ==> c == '0'
  {
    if k == 0 then [] else ['0'] + Zeros(k - 1)
  }

  /** `t` spells `n` in decimal, possibly after leading zeros (`"007"` spells 7,
      `"000"` spells 0). */
  predicate Spells(t: string, n: nat) {
    |ShowNat(n)| <= |t| && t == Zeros(|t| - |ShowNat(n)|) + ShowNat(n)
  }

  /** Every digit string spells the number it is read as. */
  lemma {:induction false} DigitsSpell(t: string)
    requires IsDigitString(t)
    ensures Spells(t, DecimalValue(t))
    decreases |t|
  {
    if t[0] != '0' {
      DigitsAreShowNat(t);
      assert Zeros(0) + t == t;
    } else if |t| == 1 {
      assert t == ShowNat(0);
      assert Zeros(0) + t == t;
    } else {
      var rest := t[1..];
      DigitsSpell(rest);
      LeadingZero(rest);
      assert ['0'] + rest == t;
      var sn := ShowNat(DecimalValue(rest));
      assert Zeros(|rest| - |sn| + 1) == ['0'] + Zeros(|rest| - |sn|);
    }
  }

  /** What a string spells is the value it is read as. */
  lemma {:induction false} SpellsValue(t: string, n: nat)
    requires Spells(t, n)
    ensures AllDigits(t) && DecimalValue(t) == n
    decreases |t|
  {
    var k := |t| - |ShowNat(n)|;
    if k == 0 {
      assert t == ShowNat(n);
      DecimalValueOfShowNat(n);
    } else {
      var rest := t[1..];
      assert t == ['0'] + rest;
      assert rest == Zeros(k - 1) + ShowNat(n);
      SpellsValue(rest, n);
      LeadingZero(rest);
    }
  }

  /** `int` of any spelling of `n`, leading zeros included, is `n`. */
  lemma ParseIntOfSpelling(t: string, n: nat)
    requires Spells(t, n)
    ensures ParseInt(t) == Some(n as int)
  {
    SpellsValue(t, n);
    StripOfUnspaced(t);
  }

  /** A leading zero does not change a decimal value. */
  lemma {:induction false} LeadingZero(s: string)
    requires AllDigits(s)
    ensures AllDigits(['0'] + s) && DecimalValue(['0'] + s) == DecimalValue(s)
    decreases |s|
  {
    var u := ['0'] + s;
    if s != [] {
      assert u[..|u| - 1] == ['0'] + s[..|s| - 1];
      LeadingZero(s[..|s| - 1]);
    } else {
      assert u[..|u| - 1] == [];
    }
  }

  /** A digit string without a leading zero is the shortest spelling of its value. */
  lemma {:induction false} DigitsAreShowNat(t: string)
    requires IsDigitString(t) && t[0] != '0'
    ensures ShowNat(DecimalValue(t)) == t
    decreases |t|
  {
    if |t| > 1 {
      var init := t[..|t| - 1];
      DigitsAreShowNat(init);
      var d := t[|t| - 1] as int - '0' as int;
      var n := DecimalValue(t);
      assert n == 10 * DecimalValue(init) + d;
      assert n >= 10 by { assert DecimalValue(init) >= 1 by { NonZeroLead(init); } }
      assert n / 10 == DecimalValue(init) && n % 10 == d;
      assert DigitChar(d) == t[|t| - 1];
      assert init + [t[|t| - 1]] == t;
    }
  }

  lemma {:induction false} NonZeroLead(t: string)
    requires IsDigitString(t) && t[0] != '0'
    ensures DecimalValue(t) >= 1
    decreases |t|
  {
    if |t| > 1 {
      NonZeroLead(t[..|t| - 1]);
    }
  }

  /** An optional sign followed by at least one decimal digit. */
  predicate IsIntLiteral(t: string) {
    IsDigitString(t) || (|t| > 1 && (t[0] == '+' || t[0] == '-') && IsDigitString(t[1..]))
  }

  /** Python's `int(text)` for base-10 text: surrounding whitespace is ignored, then an
      optional sign and at least one digit; anything else raises (`None` here). */
  function ParseInt(text: string): (r: Option<int>)
    ensures r.Some? <==> IsIntLiteral(Strip(text))
  {
    var t := Strip(text);
    if IsDigitString(t) then Some(DecimalValue(t) as int)
    else if IsIntLiteral(t) then
      (if t[0] == '-' then Some(0 - DecimalValue(t[1..])) else Some(DecimalValue(t[1..]) as int))
    else None
  }

  /** The number `int` returns is the one the digits spell, leading zeros allowed,
      with the sign applied. */
  lemma ParseIntSpells(text: string)
    requires ParseInt(text).Some?
    ensures var t := Strip(text); var v := ParseInt(text).value;
      || (IsDigitString(t) && v >= 0 && Spells(t, v))
      || (t[0] == '+' && IsDigitString(t[1..]) && v >= 0 && Spells(t[1..], v))
      || (t[0] == '-' && IsDigitString(t[1..]) && v <= 0 && Spells(t[1..], 0 - v))
  {
    var t := Strip(text);
    if IsDigitString(t) {
      DigitsSpell(t);
    } else {
      DigitsSpell(t[1..]);
    }
  }

  /** `int` reads back what `str` writes for every integer, with or without sign. */
  lemma ParseIntShowNat(n: nat)
    ensures ParseInt(ShowNat(n)) == Some(n as int)
    ensures n > 0 ==> ParseInt("-" + ShowNat(n)) == Some(0 - n as int)
    ensures ParseInt("+" + ShowNat(n)) == Some(n as int)
  {
    var s := ShowNat(n);
    DecimalValueOfShowNat(n);
    StripOfUnspaced(s);
    SignedShowNat(n, '-');
    SignedShowNat(n, '+');
  }

  lemma SignedShowNat(n: nat, sign: char)
    requires sign == '-' || sign == '+'
    ensures ParseInt([sign] + ShowNat(n)) == Some(if sign == '-' then 0 - n as int else n as int)
  {
    var s := ShowNat(n);
    var t := [sign] + s;
    DecimalValueOfShowNat(n);
    StripOfUnspaced(t);
    assert t[0] == sign && t[1..] == s;
    assert !IsDigitString(t) by { assert !IsDigit(t[0]); }
    assert IsIntLiteral(t);
    assert Strip(t) == t;
    assert DecimalValue(t[1..]) == n;
  }

  /** Text without leading or trailing whitespace is its own strip. */
  lemma StripOfUnspaced(s: string)
    requires s != [] ==> !IsSpace(s[0]) && !IsSpace(s[|s| - 1])
    ensures Strip(s) == s
  {
    if s != [] {
      assert SkipSpace(s, 0) == 0;
      assert SkipSpaceBack(s, 0, |s|) == |s|;
    }
  }

  // ---------------------------------------------------------------------------
  // str.strip()

  /** The first position at or after `i` that is not whitespace. */
  function SkipSpace(s: string, i: nat): (j: nat)
    requires i <= |s|
    ensures i <= j <= |s|
    ensures forall k :: i <= k < j ==> IsSpace(s[k])
    ensures j == |s| || !IsSpace(s[j])
    decreases |s| - i
  {
    if i == |s| || !IsSpace(s[i]) then i else SkipSpace(s, i + 1)
  }

  /** The end of `s[lo..hi]` once its trailing whitespace is dropped. */
  function SkipSpaceBack(s: string, lo: nat, hi: nat): (j: nat)
    requires lo <= hi <= |s|
    ensures lo <= j <= hi
    ensures forall k :: j <= k < hi ==> IsSpace(s[k])
    ensures j == lo || !IsSpace(s[j - 1])
    decreases hi - lo
  {
    if hi == lo || !IsSpace(s[hi - 1]) then hi else SkipSpaceBack(s, lo, hi - 1)
  }

  /** `r` is `s[a..]` up to trailing whitespace, everything before `a` is whitespace,
      and `r` neither starts nor ends with whitespace. */
  ghost predicate IsStripped(s: string, r: string, a: nat) {
    && a + |r| <= |s|
    && s[a..a + |r|] == r
    && (forall k :: 0 <= k < a ==> IsSpace(s[k]))
    && (forall k :: a + |r| <= k < |s| ==> IsSpace(s[k]))
    && (r != [] ==> !IsSpace(r[0]) && !IsSpace(r[|r| - 1]))
  }

  /** Python's `str.strip()` with no argument. */
  function Strip(s: string): (r: string)
    ensures IsStripped(s, r, SkipSpace(s, 0))
  {
    var a := SkipSpace(s, 0);
    s[a..SkipSpaceBack(s, a, |s|)]
  }

  // ---------------------------------------------------------------------------
  // sep.join(parts) and s.split(sep)

  /** Python's `sep.join(parts)` for a one-character separator. */
  function Join(parts: seq<string>, sep: char): string
    decreases |parts|
  {
    if |parts| == 0 then ""
    else if |parts| == 1 then parts[0]
    else parts[0] + [sep] + Join(parts[1..], sep)
  }

  /** Python's `s.split(sep)` for a one-character separator: always at least one
      piece, and no piece contains the separator. */
  function Split(s: string, sep: char): (parts: seq<string>)
    ensures |parts| >= 1
    ensures forall k :: 0 <= k < |parts| ==> sep !in parts[k]
    decreases |s|
  {
    if s == [] then [""]
    else
      var rest := Split(s[1..], sep);
      if s[0] == sep then [""] + rest else [[s[0]] + rest[0]] + rest[1..]
  }

  /** Splitting and joining again on the same separator gives back the text. */
  lemma {:induction false} JoinSplit(s: string, sep: char)
    ensures Join(Split(s, sep), sep) == s
    decreases |s|
  {
    if s != [] {
      var rest := Split(s[1..], sep);
      JoinSplit(s[1..], sep);
      if s[0] == sep {
        assert Split(s, sep) == [""] + rest;
        assert Join([""] + rest, sep) == "" + [sep] + Join(rest, sep);
      } else {
        var parts := [[s[0]] + rest[0]] + rest[1..];
        assert Split(s, sep) == parts;
        if |rest| == 1 {
          assert Join(parts, sep) == [s[0]] + rest[0];
        } else {
          assert parts[1..] == rest[1..];
          assert Join(rest, sep) == rest[0] + [sep] + Join(rest[1..], sep);
          assert Join(parts, sep) == [s[0]] + rest[0] + [sep] + Join(rest[1..], sep);
        }
      }
    }
  }

  /** Text without the separator splits into itself alone. */
  lemma {:induction false} SplitWithoutSeparator(a: string, sep: char)
    requires sep !in a
    ensures Split(a, sep) == [a]
    decreases |a|
  {
    if a != [] {
      SplitWithoutSeparator(a[1..], sep);
      assert [a[0]] + a[1..] == a;
    }
  }

  /** A separator-free piece followed by the separator splits off as the first part. */
  lemma {:induction false} SplitFirstPiece(a: string, sep: char, rest: string)
    requires sep !in a
    ensures Split(a + [sep] + rest, sep) == [a] + Split(rest, sep)
    decreases |a|
  {
    var s := a + [sep] + rest;
    if a == [] {
      assert s[0] == sep && s[1..] == rest;
    } else {
      assert s[0] == a[0] && s[1..] == a[1..] + [sep] + rest;
      SplitFirstPiece(a[1..], sep, rest);
      assert [a[0]] + a[1..] == a;
    }
  }

  /** Joining separator-free pieces and splitting again gives back the pieces. */
  lemma {:induction false} SplitJoin(parts: seq<string>, sep: char)
    requires |parts| >= 1
    requires forall k :: 0 <= k < |parts| ==> sep !in parts[k]
    ensures Split(Join(parts, sep), sep) == parts
    decreases |parts|
  {
    if |parts| == 1 {
      SplitWithoutSeparator(parts[0], sep);
    } else {
      SplitJoin(parts[1..], sep);
      SplitFirstPiece(parts[0], sep, Join(parts[1..], sep));
      assert [parts[0]] + parts[1..] == parts;
    }
  }

  // ---------------------------------------------------------------------------
  // Searching

  predicate OccursAt<T(==)>(s: seq<T>, t: seq<T>, i: nat) {
    i + |t| <= |s| && s[i..i + |t|] == t
  }

  /** The first position at or after `from` where `t` occurs in `s`, given that it
      occurs at `bound`: the position `str.replace(t, u, 1)` rewrites. */
  function FirstOccurrence<T(==)>(s: seq<T>, t: seq<T>, from: nat, bound: nat): (i: nat)
    requires from <= bound && OccursAt(s, t, bound)
    ensures from <= i <= bound && OccursAt(s, t, i)
    ensures forall j :: from <= j < i ==> !OccursAt(s, t, j)
    decreases bound - from
  {
    if OccursAt(s, t, from) then from else FirstOccurrence(s, t, from + 1, bound)
  }

  /** `t` occurs in `s` at `i` and nowhere before. */
  ghost predicate IsFirstOccurrence<T>(s: seq<T>, t: seq<T>, i: nat) {
    OccursAt(s, t, i) && forall j :: 0 <= j < i ==> !OccursAt(s, t, j)
  }

  /** The search finds the first occurrence, which is never after a known one. */
  lemma FirstOccurrenceIsFirst<T>(s: seq<T>, t: seq<T>, bound: nat, i: nat)
    requires OccursAt(s, t, bound) && IsFirstOccurrence(s, t, i)
    ensures i <= bound && FirstOccurrence(s, t, 0, bound) == i
  {
    var j := FirstOccurrence(s, t, 0, bound);
    assert !OccursAt(s, t, j) || j >= i;
    assert i >= j;
  }

  /** Python's `xs.index(x)`, with `None` where the source checks `x in xs` first. */
  function IndexOf<T(==)>(xs: seq<T>, x: T): (r: Option<nat>)
    ensures r.None? <==> x !in xs
    ensures r.Some? ==> r.value < |xs| && xs[r.value] == x && x !in xs[..r.value]
  {
    if xs == [] then None
    else if xs[0] == x then Some(0)
    else match IndexOf(xs[1..], x)
      case None => None
      case Some(i) =>
        assert xs[..i + 1] == [xs[0]] + xs[1..][..i];
        Some(i + 1)
  }
}
