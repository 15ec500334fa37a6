// The string handling the assemblers and disassemblers rely on: decimal
// rendering of integers (`format!("{}")`), `str::parse::<u8>` and
// `str::parse::<i8>`, `str::lines`, `str::split_whitespace` and deleting
// characters with `str::replace`. Strings are sequences of characters;
// whitespace is that of `char::is_whitespace`.
module Text {
  import opened Common

  predicate IsDigit(c: char) { '0' <= c <= '9' }

  function DigitValue(c: char): nat
    requires IsDigit(c)
  {
    (c as int) - ('0' as int)
  }

  function DigitChar(d: nat): (c: char)
    requires d < 10
    ensures IsDigit(c) && DigitValue(c) == d
  {
    (('0' as int) + d) as char
  }

  /** Decimal rendering of a natural number, without leading zeros. */
  function NatToString(n: nat): (s: string)
    ensures |s| >= 1
    ensures forall i :: 0 <= i < |s| ==> IsDigit(s[i])
    decreases n
  {
    if n < 10 then [DigitChar(n)] else NatToString(n / 10) + [DigitChar(n % 10)]
  }

  /** Decimal rendering of an integer, with a '-' for negative values. */
  function IntToString(x: int): string {
    if x < 0 then "-" + NatToString(-x) else NatToString(x)
  }

  /** Value of a non-empty string of digits. */
  function DigitsValue(s: string): nat
    requires forall i :: 0 <= i < |s| ==> IsDigit(s[i])
  {
    if s == [] then 0 else 10 * DigitsValue(s[..|s| - 1]) + DigitValue(s[|s| - 1])
  }

  predicate AllDigits(s: string) {
    |s| >= 1 && forall i :: 0 <= i < |s| ==> IsDigit(s[i])
  }

  /** Reading back the rendering of n gives n. */
  lemma {:induction false} DigitsOfNat(n: nat)
    ensures AllDigits(NatToString(n))
    ensures DigitsValue(NatToString(n)) == n
    decreases n
  {
    if n >= 10 {
      DigitsOfNat(n / 10);
      var s := NatToString(n);
      assert s[..|s| - 1] == NatToString(n / 10);
    }
  }

  /** Rust's integer `FromStr`: an optional sign ('+', or '-' when the type is
    * signed) followed by at least one digit, the value within [lo, hi]. */
  function ParseInt(s: string, lo: int, hi: int): (r: Option<int>)
    ensures r.Some? ==> lo <= r.value <= hi
  {
    if |s| >= 1 && s[0] == '+' && AllDigits(s[1..]) && lo <= DigitsValue(s[1..]) <= hi then
      Some(DigitsValue(s[1..]))
    else if |s| >= 1 && s[0] == '-' && lo < 0 && AllDigits(s[1..]) && -hi <= DigitsValue(s[1..]) <= -lo then
      Some(0 - DigitsValue(s[1..]))
    else if AllDigits(s) && lo <= DigitsValue(s) <= hi then
      Some(DigitsValue(s))
    else None
  }

  /** The kinds of `ParseIntError` a decimal parse can end with. */
  datatype IntErrorKind = Empty | InvalidDigit | PosOverflow | NegOverflow

  /** The `Display` text of a `ParseIntError` of each kind. */
  function IntErrorText(k: IntErrorKind): string {
    match k
    case Empty => "cannot parse integer from empty string"
    case InvalidDigit => "invalid digit found in string"
    case PosOverflow => "number too large to fit in target type"
    case NegOverflow => "number too small to fit in target type"
  }

  /** The digit loop of `from_str_radix`, with the first `k` characters of
    * `ds` already read as digits whose value is within `bound`: the next
    * character that is not a digit, or that takes the value past `bound`,
    * decides the error; `over` is the overflow kind for the sign read. */
  function ScanDigits(ds: string, k: nat, bound: nat, over: IntErrorKind): Option<IntErrorKind>
    requires k <= |ds| && (forall i :: 0 <= i < k ==> IsDigit(ds[i])) && DigitsValue(ds[..k]) <= bound
    decreases |ds| - k
  {
    if k == |ds| then None
    else if !IsDigit(ds[k]) then Some(InvalidDigit)
    else if DigitsValue(ds[..k + 1]) > bound then Some(over)
    else ScanDigits(ds, k + 1, bound, over)
  }

  /** The error of `from_str_radix(s, 10)` for a type with range
    * [lo, hi], or `None` when it parses: an empty text, a lone sign, then
    * the digit loop; a '-' is a sign only for a signed type. */
  function IntError(s: string, lo: int, hi: nat): Option<IntErrorKind>
    requires lo <= 0
  {
    if s == [] then Some(Empty)
    else if (s[0] == '+' || s[0] == '-') && |s| == 1 then Some(InvalidDigit)
    else if s[0] == '+' then ScanDigits(s[1..], 0, hi, PosOverflow)
    else if s[0] == '-' && lo < 0 then ScanDigits(s[1..], 0, -lo, NegOverflow)
    else ScanDigits(s, 0, hi, PosOverflow)
  }

  /** A prefix of a string of digits is worth no more than the string. */
  lemma {:induction false} DigitsPrefixLe(ds: string, j: nat)
    requires forall i :: 0 <= i < |ds| ==> IsDigit(ds[i])
    requires j <= |ds|
    ensures DigitsValue(ds[..j]) <= DigitsValue(ds)
    decreases |ds|
  {
    if j < |ds| {
      var init := ds[..|ds| - 1];
      DigitsPrefixLe(init, j);
      assert init[..j] == ds[..j];
    } else {
      assert ds[..j] == ds;
    }
  }

  /** The digit loop ends without an error exactly when the text is all
    * digits and its value is within the bound. */
  lemma {:induction false} ScanDigitsNone(ds: string, k: nat, bound: nat, over: IntErrorKind)
    requires k <= |ds| && (forall i :: 0 <= i < k ==> IsDigit(ds[i])) && DigitsValue(ds[..k]) <= bound
    requires over != InvalidDigit
    ensures ScanDigits(ds, k, bound, over).None? <==>
      (forall i :: 0 <= i < |ds| ==> IsDigit(ds[i])) && DigitsValue(ds) <= bound
    ensures ScanDigits(ds, k, bound, over) in {None, Some(InvalidDigit), Some(over)}
    decreases |ds| - k
  {
    if k == |ds| {
      assert ds[..k] == ds;
    } else if !IsDigit(ds[k]) {
    } else if DigitsValue(ds[..k + 1]) > bound {
      if forall i :: 0 <= i < |ds| ==> IsDigit(ds[i]) {
        DigitsPrefixLe(ds, k + 1);
      }
    } else {
      ScanDigitsNone(ds, k + 1, bound, over);
    }
  }

  /** The error model and `ParseInt` agree on which texts parse. */
  lemma IntErrorAgrees(s: string, lo: int, hi: nat)
    requires lo <= 0
    ensures IntError(s, lo, hi).None? <==> ParseInt(s, lo, hi).Some?
  {
    if s != [] {
      assert s[..0] == "" && s[1..][..0] == "";
      if |s| == 1 && (s[0] == '+' || s[0] == '-') {
      } else if s[0] == '+' {
        ScanDigitsNone(s[1..], 0, hi, PosOverflow);
      } else if s[0] == '-' && lo < 0 {
        ScanDigitsNone(s[1..], 0, -lo, NegOverflow);
      } else {
        ScanDigitsNone(s, 0, hi, PosOverflow);
      }
    }
  }

  /** `str::parse::<u8>`: the decimal reading of the text when it lies
    * in [0, 255]. */
  function ParseU8(s: string): (r: Option<U8>)
    ensures r.Some? <==> ParseInt(s, 0, 255).Some?
    ensures r.Some? ==> r.value as int == ParseInt(s, 0, 255).value
  {
    match ParseInt(s, 0, 255)
    case Some(v) => Some(v as U8)
    case None => None
  }

  /** `str::parse::<i8>`: the decimal reading of the text when it lies
    * in [-128, 127]. */
  function ParseI8(s: string): (r: Option<I8>)
    ensures r.Some? <==> ParseInt(s, -128, 127).Some?
    ensures r.Some? ==> r.value as int == ParseInt(s, -128, 127).value
  {
    match ParseInt(s, -128, 127)
    case Some(v) => Some(v as I8)
    case None => None
  }

  /** `str::parse::<u8>` and `str::parse::<i8>` fail exactly when the
    * digit loop reports an error. */
  lemma ParseU8I8Fail(s: string)
    ensures ParseU8(s).None? <==> IntError(s, 0, 255).Some?
    ensures ParseI8(s).None? <==> IntError(s, -128, 127).Some?
  {
    IntErrorAgrees(s, 0, 255);
    IntErrorAgrees(s, -128, 127);
  }

  /** The message `str::parse::<u8>` fails with. */
  function U8ErrorText(s: string): string
    requires ParseU8(s).None?
  {
    IntErrorAgrees(s, 0, 255);
    IntErrorText(IntError(s, 0, 255).value)
  }

  /** The message `str::parse::<i8>` fails with. */
  function I8ErrorText(s: string): string
    requires ParseI8(s).None?
  {
    IntErrorAgrees(s, -128, 127);
    IntErrorText(IntError(s, -128, 127).value)
  }

  /** The `Display` text of the `ParseFloatError` for a text that does not
    * parse as a float. */
  function FloatErrorText(s: string): string {
    if s == [] then "cannot parse float from empty string" else "invalid float literal"
  }

  /** Every byte value is read back from its rendering. */
  lemma {:induction false} ParseU8Show(v: U8)
    ensures ParseU8(NatToString(v)) == Some(v)
  {
    DigitsOfNat(v);
    var s := NatToString(v);
    assert s[0] != '+' && s[0] != '-' by { assert IsDigit(s[0]); }
  }

  /** Every `i8` value is read back from its rendering. */
  lemma ParseI8Show(v: I8)
    ensures ParseI8(IntToString(v)) == Some(v)
  {
    if v < 0 {
      var m: nat := 0 - v;
      DigitsOfNat(m);
      var s := IntToString(v);
      assert s[1..] == NatToString(m);
    } else {
      DigitsOfNat(v);
      var s := NatToString(v);
      assert s[0] != '+' && s[0] != '-' by { assert IsDigit(s[0]); }
    }
  }

  lemma ParseExamples()
    ensures ParseU8("12") == Some(12)
    ensures ParseU8("+7") == Some(7)
    ensures ParseU8("256") == None
    ensures ParseU8("") == None
    ensures ParseU8("-1") == None
    ensures ParseI8("-128") == Some(-128)
    ensures ParseI8("128") == None
  {
    assert DigitsValue("12") == 12 by { assert "12"[..1] == "1"; }
    assert DigitsValue("256") == 256 by { assert "256"[..2] == "25"; assert "25"[..1] == "2"; }
    assert "-128"[1..] == "128";
    assert DigitsValue("128") == 128 by { assert "128"[..2] == "12"; assert "12"[..1] == "1"; }
  }

  /** The error kinds of `str::parse` on texts that do not parse: the digit
    * loop stops at the first character that is not a digit or that takes
    * the value out of range, whichever comes first. */
  lemma IntErrorExamples()
    ensures IntError("", 0, 255) == Some(Empty)
    ensures IntError("+", 0, 255) == Some(InvalidDigit)
    ensures IntError("-1", 0, 255) == Some(InvalidDigit)
    ensures IntError("256", 0, 255) == Some(PosOverflow)
    ensures IntError("300x", 0, 255) == Some(PosOverflow)
    ensures IntError("2x00", 0, 255) == Some(InvalidDigit)
    ensures IntError("-129", -128, 127) == Some(NegOverflow)
  {
    assert "256"[..1] == "2" && "256"[..2] == "25" && "256"[..3] == "256";
    assert DigitsValue("256") == 256 by { assert "256"[..2] == "25"; assert "25"[..1] == "2"; }
    assert ScanDigits("256", 2, 255, PosOverflow) == Some(PosOverflow);
    assert "300x"[..1] == "3" && "300x"[..2] == "30" && "300x"[..3] == "300";
    assert DigitsValue("300") == 300 by { assert "300"[..2] == "30"; assert "30"[..1] == "3"; }
    assert ScanDigits("300x", 2, 255, PosOverflow) == Some(PosOverflow);
    assert "2x00"[..1] == "2";
    assert ScanDigits("2x00", 1, 255, PosOverflow) == Some(InvalidDigit);
    var t := "-129"[1..];
    assert t == "129";
    assert t[..1] == "1" && t[..2] == "12" && t[..3] == "129";
    assert DigitsValue("129") == 129 by { assert "129"[..2] == "12"; assert "12"[..1] == "1"; }
    assert ScanDigits(t, 2, 128, NegOverflow) == Some(NegOverflow);
  }

  /** `s` with every character in `cs` deleted: `str::replace(cs, "")`. */
  function Delete(s: string, cs: set<char>): (r: string)
    ensures forall i :: 0 <= i < |r| ==> r[i] !in cs
    ensures |r| <= |s|
  {
    if s == [] then []
    else if s[0] in cs then Delete(s[1..], cs)
    else [s[0]] + Delete(s[1..], cs)
  }

  lemma {:induction false} DeleteNone(s: string, cs: set<char>)
    requires forall i :: 0 <= i < |s| ==> s[i] !in cs
    ensures Delete(s, cs) == s
  {
    if s != [] {
      DeleteNone(s[1..], cs);
    }
  }

  lemma {:induction false} DeleteAppend(a: string, b: string, cs: set<char>)
    ensures Delete(a + b, cs) == Delete(a, cs) + Delete(b, cs)
  {
    if a != [] {
      assert (a + b)[1..] == a[1..] + b;
      DeleteAppend(a[1..], b, cs);
    } else {
      assert a + b == b;
    }
  }

  /** `char::is_whitespace`: the Unicode White_Space property. */
  predicate IsSpace(c: char) {
    c == ' ' || '\t' <= c <= '\r' || c == '\U{85}' || c == '\U{A0}' || c == '\U{1680}' ||
    '\U{2000}' <= c <= '\U{200A}' || c == '\U{2028}' || c == '\U{2029}' ||
    c == '\U{202F}' || c == '\U{205F}' || c == '\U{3000}'
  }

  /** `str::split_whitespace`: the maximal runs of non-space characters. */
  function Words(s: string): (r: seq<string>)
    ensures forall i :: 0 <= i < |r| ==> |r[i]| >= 1
    decreases |s|
  {
    if s == [] then []
    else if IsSpace(s[0]) then Words(s[1..])
    else
      var n := WordLen(s);
      [s[..n]] + Words(s[n..])
  }

  /** Length of the leading run of non-space characters. */
  function WordLen(s: string): (n: nat)
    ensures n <= |s|
    ensures forall i :: 0 <= i < n ==> !IsSpace(s[i])
    ensures n == |s| || IsSpace(s[n])
  {
    if s == [] || IsSpace(s[0]) then 0 else 1 + WordLen(s[1..])
  }

  predicate NoSpace(s: string) {
    forall i :: 0 <= i < |s| ==> !IsSpace(s[i])
  }

  /** `showImm` prints every floating-point value as one token that
    * `parseImm` reads back. */
  ghost predicate ImmTextRoundTrips(showImm: real -> string, parseImm: string -> Option<real>) {
    forall x :: |showImm(x)| >= 1 && NoSpace(showImm(x)) && parseImm(showImm(x)) == Some(x)
  }

  /** Words joined by single spaces split back into the same words. */
  function Unwords(ws: seq<string>): string {
    if ws == [] then "" else if |ws| == 1 then ws[0] else ws[0] + " " + Unwords(ws[1..])
  }

  lemma {:induction false} WordLenOf(w: string, rest: string)
    requires NoSpace(w)
    requires rest == [] || IsSpace(rest[0])
    ensures WordLen(w + rest) == |w|
    decreases |w|
  {
    if w != [] {
      assert (w + rest)[1..] == w[1..] + rest;
      WordLenOf(w[1..], rest);
    } else {
      assert w + rest == rest;
    }
  }

  lemma {:induction false} WordsUnwords(ws: seq<string>)
    requires forall i :: 0 <= i < |ws| ==> |ws[i]| >= 1 && NoSpace(ws[i])
    ensures Words(Unwords(ws)) == ws
  {
    if |ws| == 1 {
      WordLenOf(ws[0], "");
      assert ws[0] + "" == ws[0];
      assert ws[0][|ws[0]|..] == [];
    } else if |ws| > 1 {
      var w, rest := ws[0], " " + Unwords(ws[1..]);
      WordLenOf(w, rest);
      var s := w + rest;
      assert Unwords(ws) == s;
      assert s[..|w|] == w;
      assert s[|w|..] == rest;
      assert rest[1..] == Unwords(ws[1..]);
      WordsUnwords(ws[1..]);
    }
  }

  /** Text made of space-free tokens and single spaces holds no line break. */
  lemma {:induction false} UnwordsIsLine(ws: seq<string>)
    requires forall i :: 0 <= i < |ws| ==> NoSpace(ws[i])
    ensures IsLine(Unwords(ws))
  {
    if |ws| > 1 {
      UnwordsIsLine(ws[1..]);
      var s := Unwords(ws);
      assert s == ws[0] + " " + Unwords(ws[1..]);
      forall i | 0 <= i < |s|
        ensures s[i] != '\n' && s[i] != '\r'
      {
        if i < |ws[0]| {
          assert s[i] == ws[0][i];
        } else if i > |ws[0]| {
          assert s[i] == Unwords(ws[1..])[i - |ws[0]| - 1];
        }
      }
    } else if |ws| == 1 {
      assert NoSpace(ws[0]);
    }
  }

  /** `str::lines`: pieces between '\n', the last one dropped when empty,
    * each without a trailing '\r'. */
  function Lines(s: string): seq<string>
    decreases |s|
  {
    if s == [] then []
    else
      var n := LineLen(s);
      if n == |s| then [StripCr(s)] else [StripCr(s[..n])] + Lines(s[n + 1..])
  }

  /** Length of the leading run of characters other than '\n'. */
  function LineLen(s: string): (n: nat)
    ensures n <= |s|
    ensures forall i :: 0 <= i < n ==> s[i] != '\n'
    ensures n == |s| || s[n] == '\n'
  {
    if s == [] || s[0] == '\n' then 0 else 1 + LineLen(s[1..])
  }

  function StripCr(s: string): string {
    if |s| >= 1 && s[|s| - 1] == '\r' then s[..|s| - 1] else s
  }

  predicate IsLine(s: string) {
    forall i :: 0 <= i < |s| ==> s[i] != '\n' && s[i] != '\r'
  }

  /** Each text followed by a newline: what the disassemblers emit. */
  function JoinLines(ls: seq<string>): string {
    if ls == [] then "" else ls[0] + "\n" + JoinLines(ls[1..])
  }

  /** The joined lines from index i on start with line i and its newline. */
  lemma JoinLinesFrom(ls: seq<string>, i: nat)
    requires i < |ls|
    ensures JoinLines(ls[i..]) == ls[i] + "\n" + JoinLines(ls[i + 1..])
  {
    assert ls[i..][0] == ls[i] && ls[i..][1..] == ls[i + 1..];
  }

  lemma {:induction false} LineLenOf(l: string, rest: string)
    requires IsLine(l)
    ensures LineLen(l + "\n" + rest) == |l|
    decreases |l|
  {
    if l != [] {
      assert (l + "\n" + rest)[1..] == l[1..] + "\n" + rest;
      LineLenOf(l[1..], rest);
    } else {
      assert l + "\n" + rest == "\n" + rest;
    }
  }

  /** Splitting the newline-terminated lines back gives the same lines. */
  lemma {:induction false} LinesJoinLines(ls: seq<string>)
    requires forall i :: 0 <= i < |ls| ==> IsLine(ls[i])
    ensures Lines(JoinLines(ls)) == ls
  {
    if ls != [] {
      var l, rest := ls[0], JoinLines(ls[1..]);
      var s := l + "\n" + rest;
      assert JoinLines(ls) == s;
      LineLenOf(l, rest);
      assert s[..|l|] == l;
      assert s[|l| + 1..] == rest;
      assert StripCr(l) == l by {
        if |l| >= 1 { assert l[|l| - 1] != '\r'; }
      }
      LinesJoinLines(ls[1..]);
    }
  }

  lemma {:induction false} JoinLinesCount(ls: seq<string>)
    requires forall i :: 0 <= i < |ls| ==> IsLine(ls[i])
    ensures multiset(JoinLines(ls))['\n'] == |ls|
  {
    if ls != [] {
      JoinLinesCount(ls[1..]);
      var l := ls[0];
      assert multiset(l)['\n'] == 0 by {
        assert '\n' !in l;
      }
      assert JoinLines(ls) == l + "\n" + JoinLines(ls[1..]);
    }
  }
}
