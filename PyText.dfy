/**
 * The Python text primitives the application leans on:
 * `str.strip()`, `int(text)` in base 10, `str(n)`, `",".join(parts)` and
 * `text.split(",")`. Digits are the ASCII `0`-`9` only.
 */
module PyText {
  import opened Outcomes

  predicate IsDigit(c: char) { '0' <= c <= '9' }

  function DigitValue(c: char): (v: nat)
    requires IsDigit(c)
    ensures v < 10
  {
    (c as int) - ('0' as int)
  }

  function DigitChar(v: nat): (c: char)
    requires v < 10
    ensures IsDigit(c) && DigitValue(c) == v
  {
    (('0' as int) + v) as char
  }

  predicate AllDigits(s: string) { forall i :: 0 <= i < |s| ==> IsDigit(s[i]) }

  /** The value of a string of decimal digits, most significant digit first. */
  function DigitsValue(s: string): nat
    requires AllDigits(s)
  {
    if s == [] then 0 else 10 * DigitsValue(s[..|s| - 1]) + DigitValue(s[|s| - 1])
  }

  /** `str(n)` for a non-negative `n`: its decimal digits, without leading zeros. */
  function ShowNat(n: nat): (s: string)
    ensures 1 <= |s| && AllDigits(s)
    ensures |s| > 1 ==> s[0] != '0'
  {
    if n < 10 then [DigitChar(n)] else ShowNat(n / 10) + [DigitChar(n % 10)]
  }

  /** `str(n)` for any integer. */
  function ShowInt(n: int): (s: string)
  {
    if n < 0 then "-" + ShowNat(-n) else ShowNat(n)
  }

  lemma {:induction false} ShowNatValue(n: nat)
    ensures DigitsValue(ShowNat(n)) == n
  {
    if n >= 10 {
      var s := ShowNat(n);
      assert s[..|s| - 1] == ShowNat(n / 10);
      ShowNatValue(n / 10);
    }
  }

  /** Leading zeros do not change the value of a digit string. */
  lemma {:induction false} LeadingZerosValue(k: nat, s: string)
    requires AllDigits(s)
    ensures AllDigits(Zeros(k) + s) && DigitsValue(Zeros(k) + s) == DigitsValue(s)
  {
    var t := Zeros(k) + s;
    assert AllDigits(t) by {
      forall i | 0 <= i < |t| ensures IsDigit(t[i]) {
        if i < k { assert t[i] == Zeros(k)[i]; } else { assert t[i] == s[i - k]; }
      }
    }
    if s == [] {
      ZerosValue(k);
      assert t == Zeros(k);
    } else {
      assert t[..|t| - 1] == Zeros(k) + s[..|s| - 1];
      LeadingZerosValue(k, s[..|s| - 1]);
    }
  }

  function Zeros(k: nat): (z: string)
    ensures |z| == k && forall i :: 0 <= i < k ==> z[i] == '0'
  {
    if k == 0 then [] else Zeros(k - 1) + ['0']
  }

  lemma {:induction false} ZerosValue(k: nat)
    ensures AllDigits(Zeros(k)) && DigitsValue(Zeros(k)) == 0
  {
    if k > 0 {
      assert Zeros(k)[..k - 1] == Zeros(k - 1);
      ZerosValue(k - 1);
    }
  }

  /**
   * Python's `format(n, "0<width>")` for `n >= 0`: the decimal digits of `n`,
   * zero-filled on the left to at least `width` characters.
   */
  function ZeroPad(n: nat, width: nat): (s: string)
    ensures AllDigits(s) && DigitsValue(s) == n
    ensures |s| == if |ShowNat(n)| >= width then |ShowNat(n)| else width
  {
    var digits := ShowNat(n);
    ShowNatValue(n);
    if |digits| >= width then digits
    else
      LeadingZerosValue(width - |digits|, digits);
      Zeros(width - |digits|) + digits
  }

  function Pow10(k: nat): nat { if k == 0 then 1 else 10 * Pow10(k - 1) }

  /** A number below 10^k has at most k digits (and at least one). */
  lemma {:induction false} ShowNatLength(n: nat, k: nat)
    requires 1 <= k && n < Pow10(k)
    ensures |ShowNat(n)| <= k
  {
    if n >= 10 {
      assert Pow10(1) == 10;
      assert k >= 2;
      assert n / 10 < Pow10(k - 1);
      ShowNatLength(n / 10, k - 1);
    }
  }

  // ---------------------------------------------------------------- strip

  /**
   * The characters `str.isspace()` accepts: the ASCII controls 9-13 and
   * 28-31, the space, and the Unicode separators and spaces from U+0085 on.
   */
  predicate IsSpace(c: char)
  {
    var k := c as int;
    || k == 0x20 || 0x09 <= k <= 0x0D || 0x1C <= k <= 0x1F
    || k == 0x85 || k == 0xA0 || k == 0x1680 || 0x2000 <= k <= 0x200A
    || k == 0x2028 || k == 0x2029 || k == 0x202F || k == 0x205F || k == 0x3000
  }

  /**
   * Which whitespace a trim drops: all of `str.isspace()` for `str.strip()`,
   * or the narrower set `int()` skips around a number, which leaves out the
   * ASCII separators U+001C-U+001F (it turns the non-ASCII spaces into `' '`
   * and then skips only space and `\t\n\v\f\r`).
   */
  datatype Blanks = StrBlanks | IntBlanks

  predicate IsBlank(c: char, b: Blanks)
  {
    IsSpace(c) && (b == IntBlanks ==> !(0x1C <= c as int <= 0x1F))
  }

  /** `text.lstrip()` for `StrBlanks`: drops the longest all-blank prefix. */
  function StripLeft(s: string, b: Blanks): (r: string)
    ensures |r| <= |s| && r == s[|s| - |r|..]
    ensures forall i :: 0 <= i < |s| - |r| ==> IsBlank(s[i], b)
    ensures r != [] ==> !IsBlank(r[0], b)
  {
    if |s| > 0 && IsBlank(s[0], b) then StripLeft(s[1..], b) else s
  }

  /** `text.rstrip()` for `StrBlanks`: drops the longest all-blank suffix. */
  function StripRight(s: string, b: Blanks): (r: string)
    ensures |r| <= |s| && r == s[..|r|]
    ensures forall i :: |r| <= i < |s| ==> IsBlank(s[i], b)
    ensures r != [] ==> !IsBlank(r[|r| - 1], b)
  {
    if |s| > 0 && IsBlank(s[|s| - 1], b) then StripRight(s[..|s| - 1], b) else s
  }

  /** Both ends trimmed of the blanks `b`. */
  function Trim(s: string, b: Blanks): string
  {
    StripRight(StripLeft(s, b), b)
  }

  /** `text.strip()`. */
  function Strip(s: string): string
  {
    Trim(s, StrBlanks)
  }

  /** Stripping leaves the empty string exactly when the text is all whitespace. */
  lemma StripEmptyIffBlank(s: string)
    ensures Strip(s) == [] <==> forall i :: 0 <= i < |s| ==> IsSpace(s[i])
  {
    var l := StripLeft(s, StrBlanks);
    if Strip(s) != [] {
      var r := Strip(s);
      var k := |s| - |l|;
      assert s[k] == l[0] == r[0];
    }
  }

  /** Text with no blank at either end is left as it is. */
  lemma StripTrimmed(s: string, b: Blanks)
    requires s == [] || (!IsBlank(s[0], b) && !IsBlank(s[|s| - 1], b))
    ensures Trim(s, b) == s
  {
  }

  /** The blanks before the first non-blank are exactly what `StripLeft` drops. */
  lemma {:induction false} StripLeftAt(s: string, j: nat, b: Blanks)
    requires j < |s| && !IsBlank(s[j], b)
    requires forall i :: 0 <= i < j ==> IsBlank(s[i], b)
    ensures StripLeft(s, b) == s[j..]
  {
    if j > 0 {
      StripLeftAt(s[1..], j - 1, b);
    }
  }

  /** The mirror image of `StripLeftAt` for `StripRight`. */
  lemma {:induction false} StripRightAt(s: string, j: nat, b: Blanks)
    requires 0 < j <= |s| && !IsBlank(s[j - 1], b)
    requires forall i :: j <= i < |s| ==> IsBlank(s[i], b)
    ensures StripRight(s, b) == s[..j]
  {
    if j < |s| {
      StripRightAt(s[..|s| - 1], j, b);
    }
  }

  /**
   * When what `int()` keeps on the left starts with no space of any kind,
   * `lstrip()` keeps the same: every blank `int()` skips, `lstrip()` drops.
   */
  lemma {:induction false} StripLeftWider(s: string)
    requires var l := StripLeft(s, IntBlanks); l != [] && !IsSpace(l[0])
    ensures StripLeft(s, StrBlanks) == StripLeft(s, IntBlanks)
  {
    if IsBlank(s[0], IntBlanks) {
      StripLeftWider(s[1..]);
    }
  }

  /** The mirror image of `StripLeftWider` for `rstrip()`. */
  lemma {:induction false} StripRightWider(s: string)
    requires var r := StripRight(s, IntBlanks); r != [] && !IsSpace(r[|r| - 1])
    ensures StripRight(s, StrBlanks) == StripRight(s, IntBlanks)
  {
    if IsBlank(s[|s| - 1], IntBlanks) {
      StripRightWider(s[..|s| - 1]);
    }
  }

  /**
   * When the part `int()` keeps neither starts nor ends with a space of any
   * kind, `str.strip()` keeps the same part.
   */
  lemma StripAgreesWithInt(s: string)
    requires var t := Trim(s, IntBlanks); t != [] && !IsSpace(t[0]) && !IsSpace(t[|t| - 1])
    ensures Strip(s) == Trim(s, IntBlanks)
  {
    var l := StripLeft(s, IntBlanks);
    var t := StripRight(l, IntBlanks);
    assert l[0] == t[0];
    StripLeftWider(s);
    StripRightWider(l);
  }

  // ---------------------------------------------------------------- int()

  /** Digits with single underscores between them, as `int()` accepts in base 10. */
  predicate IsUnderscoredDigits(u: string)
  {
    && |u| >= 1 && IsDigit(u[0]) && IsDigit(u[|u| - 1])
    && DigitsOrUnderscores(u)
    && forall i :: 0 <= i < |u| - 1 && u[i] == '_' ==> IsDigit(u[i + 1])
  }

  predicate DigitsOrUnderscores(u: string)
  {
    forall i :: 0 <= i < |u| ==> IsDigit(u[i]) || u[i] == '_'
  }

  function DropUnderscores(u: string): (r: string)
    requires DigitsOrUnderscores(u)
    ensures AllDigits(r) && |r| <= |u|
    ensures AllDigits(u) ==> r == u
  {
    if u == [] then []
    else if u[0] == '_' then DropUnderscores(u[1..])
    else [u[0]] + DropUnderscores(u[1..])
  }

  function ParseUnsigned(u: string): (r: Option<int>)
    ensures r.Some? ==> r.value >= 0
  {
    if IsUnderscoredDigits(u) then
      Some(DigitsValue(DropUnderscores(u)))
    else None
  }

  /** A plain run of digits parses to its value. */
  lemma ParseUnsignedDigits(u: string)
    requires |u| >= 1 && AllDigits(u)
    ensures ParseUnsigned(u) == Some(DigitsValue(u))
  {
    assert IsUnderscoredDigits(u);
  }

  /**
   * `int(text)`: surrounding `IntBlanks`, one optional sign, then decimal
   * digits that may be grouped by single underscores; anything else raises
   * `ValueError`, modelled as `None`.
   */
  function ParseInt(s: string): (r: Option<int>)
  {
    var t := Trim(s, IntBlanks);
    if |t| > 0 && (t[0] == '+' || t[0] == '-') then
      match ParseUnsigned(t[1..])
      case None => None
      case Some(v) => Some(if t[0] == '-' then -v else v)
    else
      ParseUnsigned(t)
  }

  /** `int(str(n)) == n`. */
  lemma ParseIntShowInt(n: int)
    ensures ParseInt(ShowInt(n)) == Some(n)
  {
    var s := ShowInt(n);
    var m: nat := if n < 0 then -n else n;
    var digits := ShowNat(m);
    ShowNatValue(m);
    ParseUnsignedDigits(digits);
    StripTrimmed(s, IntBlanks);
    assert Trim(s, IntBlanks) == s;
    if n < 0 {
      assert s == "-" + digits;
      assert s[0] == '-' && s[1..] == digits;
      assert ParseUnsigned(s[1..]) == Some(m);
    } else {
      assert s == digits;
      assert IsDigit(s[0]);
    }
  }

  /** A plain run of digits is what `int()` reads as its value. */
  lemma ParseIntDigits(s: string)
    requires |s| >= 1 && AllDigits(s)
    ensures ParseInt(s) == Some(DigitsValue(s))
  {
    StripTrimmed(s, IntBlanks);
    ParseUnsignedDigits(s);
  }

  /** What `int()` accepts is a sign or a digit, then ends in a digit, once its blanks are dropped. */
  lemma ParseIntShape(s: string)
    ensures var t := Trim(s, IntBlanks);
            ParseInt(s).Some? ==>
              t != [] && (IsDigit(t[0]) || t[0] == '+' || t[0] == '-') && IsDigit(t[|t| - 1])
  {
    var t := Trim(s, IntBlanks);
    if ParseInt(s).None? {
    } else if |t| > 0 && (t[0] == '+' || t[0] == '-') {
      assert IsUnderscoredDigits(t[1..]);
      assert t[|t| - 1] == t[1..][|t| - 2];
    } else {
      assert IsUnderscoredDigits(t);
    }
  }

  /** Text ending in a character that is neither a digit nor skipped by `int()` makes `int()` raise. */
  lemma ParseIntBadLast(s: string)
    requires s != [] && !IsBlank(s[|s| - 1], IntBlanks) && !IsDigit(s[|s| - 1])
    ensures ParseInt(s) == None
  {
    var l := StripLeft(s, IntBlanks);
    assert l != [] && l[|l| - 1] == s[|s| - 1];
    assert Trim(s, IntBlanks) == l;
    ParseIntShape(s);
  }

  /** `str.strip()` is idempotent. */
  lemma StripIdempotent(s: string)
    ensures Strip(Strip(s)) == Strip(s)
  {
    var l := StripLeft(s, StrBlanks);
    var r := StripRight(l, StrBlanks);
    if r != [] {
      assert r[0] == l[0];
    }
    StripTrimmed(r, StrBlanks);
  }

  /** Where `int(text)` succeeds, `int(text.strip())` gives the same number. */
  lemma ParseIntAfterStrip(s: string)
    ensures ParseInt(s).Some? ==> ParseInt(Strip(s)) == ParseInt(s)
  {
    ParseIntShape(s);
    if ParseInt(s).Some? {
      var t := Trim(s, IntBlanks);
      assert !IsSpace(t[0]) && !IsSpace(t[|t| - 1]);
      StripAgreesWithInt(s);
      StripTrimmed(t, IntBlanks);
      ParseIntByTrim(Strip(s), s);
    }
  }

  /** `int()` sees only the text between its blanks. */
  lemma ParseIntByTrim(a: string, b: string)
    requires Trim(a, IntBlanks) == Trim(b, IntBlanks)
    ensures ParseInt(a) == ParseInt(b)
  {
  }

  /**
   * `int()` does not skip the separator U+001C that `str.strip()` drops:
   * `int("5\x1c")` raises, while `int("5\x1c".strip())` is 5.
   */
  lemma IntKeepsSeparators()
    ensures Strip("5\U{1C}") == "5" && ParseInt("5") == Some(5)
    ensures ParseInt("5\U{1C}") == None
  {
    var s := "5\U{1C}";
    StripLeftAt(s, 0, StrBlanks);
    StripRightAt(s, 1, StrBlanks);
    assert s[..1] == "5";
    ParseIntDigits("5");
    assert DigitsValue("5") == 5;
    ParseIntBadLast(s);
  }

  // ------------------------------------------------------- join and split

  /** `sep.join(parts)`. */
  function Join(parts: seq<string>, sep: char): (s: string)
  {
    if |parts| == 0 then ""
    else if |parts| == 1 then parts[0]
    else parts[0] + [sep] + Join(parts[1..], sep)
  }

  /** `s.split(sep)`: the pieces between separators, always at least one. */
  function Split(s: string, sep: char): (parts: seq<string>)
    ensures |parts| >= 1
  {
    if s == [] then [""]
    else
      var rest := Split(s[1..], sep);
      if s[0] == sep then [""] + rest else [[s[0]] + rest[0]] + rest[1..]
  }

  /** Prepending text to the first part prepends it to the joined text. */
  lemma JoinPrefix(x: string, parts: seq<string>, sep: char)
    requires |parts| >= 1
    ensures Join([x + parts[0]] + parts[1..], sep) == x + Join(parts, sep)
  {
    var q := [x + parts[0]] + parts[1..];
    assert q[1..] == parts[1..];
  }

  /** Joining the pieces of a split gives back the text: `sep.join(s.split(sep)) == s`. */
  lemma {:induction false} JoinSplit(s: string, sep: char)
    ensures Join(Split(s, sep), sep) == s
  {
    if s != [] {
      var rest := Split(s[1..], sep);
      JoinSplit(s[1..], sep);
      if s[0] == sep {
        assert ([""] + rest)[1..] == rest;
        assert Join([""] + rest, sep) == "" + [sep] + Join(rest, sep);
      } else {
        JoinPrefix([s[0]], rest, sep);
      }
    }
  }

  /** Splitting a separator-free text followed by a separator peels off that text. */
  lemma {:induction false} SplitAfterPiece(p: string, t: string, sep: char)
    requires sep !in p
    ensures Split(p + [sep] + t, sep) == [p] + Split(t, sep)
  {
    if p != [] {
      var s := p + [sep] + t;
      assert s[0] == p[0] && s[1..] == p[1..] + [sep] + t;
      SplitAfterPiece(p[1..], t, sep);
      var rest := Split(s[1..], sep);
      assert rest[0] == p[1..] && rest[1..] == Split(t, sep);
      assert [p[0]] + p[1..] == p;
    } else {
      assert p + [sep] + t == [sep] + t;
      assert ([sep] + t)[1..] == t;
    }
  }

  /** A separator-free text splits into itself. */
  lemma {:induction false} SplitPiece(p: string, sep: char)
    requires sep !in p
    ensures Split(p, sep) == [p]
  {
    if p != [] {
      SplitPiece(p[1..], sep);
      assert [p[0]] + p[1..] == p;
    }
  }

  /**
   * Splitting a join gives back the parts, provided there is at least one
   * part and no part contains the separator: `",".join(ps).split(",") == ps`.
   */
  lemma {:induction false} SplitJoin(parts: seq<string>, sep: char)
    requires |parts| >= 1
    requires forall k :: 0 <= k < |parts| ==> sep !in parts[k]
    ensures Split(Join(parts, sep), sep) == parts
  {
    if |parts| == 1 {
      SplitPiece(parts[0], sep);
    } else {
      SplitJoin(parts[1..], sep);
      SplitAfterPiece(parts[0], Join(parts[1..], sep), sep);
      assert [parts[0]] + parts[1..] == parts;
    }
  }

  /** The joined text is empty only for no parts or for one empty part. */
  lemma {:induction false} JoinEmpty(parts: seq<string>, sep: char)
    requires |parts| >= 1 && parts[0] != ""
    ensures Join(parts, sep) != ""
  {
  }
}
