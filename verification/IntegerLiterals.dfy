/** Integer literals in Go syntax, as big.Int reads them with base 0 (accounts/hd.go uses this for the
    components of a path): the scanner, and the grammar that it implements. */
module IntegerLiterals {
  import opened Wrappers

  // ---------- The scanner ----------

  function DigitValue(c: char): (d: nat) {
    if '0' <= c <= '9' then c as int - '0' as int
    else if 'a' <= c <= 'z' then c as int - 'a' as int + 10
    else if 'A' <= c <= 'Z' then c as int - 'A' as int + 10
    else 99
  }

  /** Appends a digit to a number. */
  function Push(acc: nat, base: nat, d: nat): (n: nat) { acc * base + d }

  /** Digits of a base with underscores that must follow a digit or the base prefix. */
  function ScanDigits(s: string, base: nat, afterDigit: bool, acc: nat, any: bool): (r: Option<nat>)
    decreases |s|
  {
    if s == "" then if afterDigit && any then Some(acc) else None
    else if s[0] == '_' then if afterDigit then ScanDigits(s[1..], base, false, acc, any) else None
    else if DigitValue(s[0]) < base then ScanDigits(s[1..], base, true, Push(acc, base, DigitValue(s[0])), true)
    else None
  }

  /** An unsigned number whose base is given by its prefix: 0b, 0o, 0x, or a leading zero. */
  function ParseNat(s: string): (r: Option<nat>) {
    if |s| >= 2 && s[0] == '0' then
      if s[1] in "bB" then ScanDigits(s[2..], 2, true, 0, false)
      else if s[1] in "oO" then ScanDigits(s[2..], 8, true, 0, false)
      else if s[1] in "xX" then ScanDigits(s[2..], 16, true, 0, false)
      else ScanDigits(s[1..], 8, true, 0, true)
    else ScanDigits(s, 10, false, 0, false)
  }

  function ParseInt(s: string): (r: Option<int>) {
    if s != "" && s[0] in "+-" then
      match ParseNat(s[1..])
      case None => None
      case Some(n) => var v: int := if s[0] == '-' then -(n as int) else n; Some(v)
    else
      match ParseNat(s)
      case None => None
      case Some(n) => var v: int := n; Some(v)
  }

  // ---------- The grammar ----------

  /** A digit of a literal: its value, whether it is written in upper case, and whether an underscore
      precedes it. */
  datatype Digit = Digit(value: nat, upper: bool, gap: bool)

  predicate Below(ds: seq<Digit>, base: nat) { forall i :: 0 <= i < |ds| ==> ds[i].value < base }

  function Sign(d: Digit): (c: char)
    requires d.value < 16
  {
    (if d.upper then "0123456789ABCDEF" else "0123456789abcdef")[d.value]
  }

  function Text(ds: seq<Digit>): (s: string)
    requires Below(ds, 16)
  {
    if ds == [] then ""
    else (if ds[0].gap then "_" else "") + [Sign(ds[0])] + Text(ds[1..])
  }

  /** The number that the digits write, last digit least. */
  function Value(ds: seq<Digit>, base: nat): (n: nat) {
    if ds == [] then 0 else Value(ds[..|ds| - 1], base) * base + ds[|ds| - 1].value
  }

  /** A decimal literal, an octal one with a leading zero, or one with a prefix: 0b, 0o or 0x. */
  datatype Literal = Plain(ds: seq<Digit>) | LeadingZero(ds: seq<Digit>) | Prefixed(base: nat, upper: bool,
                                                                                    ds: seq<Digit>)

  function BaseOf(lit: Literal): (b: nat) {
    match lit
    case Plain(_) => 10
    case LeadingZero(_) => 8
    case Prefixed(base, _, _) => base
  }

  /** There are digits, all below the base. A decimal literal starts with a digit other than zero
      unless it is just "0". */
  predicate Proper(lit: Literal) {
    && lit.ds != [] && Below(lit.ds, BaseOf(lit))
    && (lit.Plain? ==> !lit.ds[0].gap && (|lit.ds| == 1 || lit.ds[0].value != 0))
    && (lit.Prefixed? ==> lit.base == 2 || lit.base == 8 || lit.base == 16)
  }

  function Prefix(base: nat, upper: bool): (s: string) {
    if base == 2 then if upper then "0B" else "0b"
    else if base == 8 then if upper then "0O" else "0o"
    else if upper then "0X" else "0x"
  }

  function LiteralText(lit: Literal): (s: string)
    requires Proper(lit)
  {
    match lit
    case Plain(ds) => Text(ds)
    case LeadingZero(ds) => "0" + Text(ds)
    case Prefixed(base, upper, ds) => Prefix(base, upper) + Text(ds)
  }

  /** The literal is written `s` and denotes `n`. */
  predicate Denotes(lit: Literal, s: string, n: nat) {
    Proper(lit) && LiteralText(lit) == s && Value(lit.ds, BaseOf(lit)) == n
  }

  // ---------- The scanner accepts exactly the grammar ----------

  lemma SignValue(d: Digit)
    requires d.value < 16
    ensures DigitValue(Sign(d)) == d.value && Sign(d) != '_' && (Sign(d) == '0' <==> d.value == 0)
    ensures d.value < 10 ==> '0' <= Sign(d) <= '9'
  {
    var v := d.value;
    assert v == 0 || v == 1 || v == 2 || v == 3 || v == 4 || v == 5 || v == 6 || v == 7 || v == 8 || v == 9 || v == 10
           || v == 11 || v == 12 || v == 13 || v == 14 || v == 15;
  }

  lemma ValueSign(c: char)
    requires DigitValue(c) < 16
    ensures Sign(Digit(DigitValue(c), 'A' <= c <= 'Z', false)) == c
  {
    var v := DigitValue(c);
    assert v == 0 || v == 1 || v == 2 || v == 3 || v == 4 || v == 5 || v == 6 || v == 7 || v == 8 || v == 9 || v == 10
           || v == 11 || v == 12 || v == 13 || v == 14 || v == 15;
  }

  /** The digits read from the front, after `acc`. */
  function Fold(acc: nat, ds: seq<Digit>, base: nat): (n: nat)
    decreases |ds|
  {
    if ds == [] then acc else Fold(Push(acc, base, ds[0].value), ds[1..], base)
  }

  lemma {:induction false} FoldAppend(acc: nat, ds: seq<Digit>, d: Digit, base: nat)
    ensures Fold(acc, ds + [d], base) == Fold(acc, ds, base) * base + d.value
    decreases |ds|
  {
    if ds == [] {
      assert (ds + [d])[1..] == [];
    } else {
      assert (ds + [d])[1..] == ds[1..] + [d];
      FoldAppend(Push(acc, base, ds[0].value), ds[1..], d, base);
    }
  }

  /** Reading from the front gives the number. */
  lemma {:induction false} FoldIsValue(ds: seq<Digit>, base: nat)
    ensures Fold(0, ds, base) == Value(ds, base)
    decreases |ds|
  {
    if ds != [] {
      var init := ds[..|ds| - 1];
      FoldIsValue(init, base);
      FoldAppend(0, init, ds[|ds| - 1], base);
      assert init + [ds[|ds| - 1]] == ds;
    }
  }

  lemma {:induction false} ScanText(ds: seq<Digit>, base: nat, afterDigit: bool, acc: nat, any: bool)
    requires base <= 16 && Below(ds, base)
    requires if ds == [] then afterDigit && any else ds[0].gap ==> afterDigit
    ensures ScanDigits(Text(ds), base, afterDigit, acc, any) == Some(Fold(acc, ds, base))
    decreases |ds|
  {
    if ds != [] {
      ScanText(ds[1..], base, true, Push(acc, base, ds[0].value), true);
      ScanGapped(ds[0], Text(ds[1..]), base, afterDigit, acc, any);
    }
  }

  lemma ScanGapped(d: Digit, rest: string, base: nat, afterDigit: bool, acc: nat, any: bool)
    requires d.value < base <= 16 && (d.gap ==> afterDigit)
    ensures ScanDigits((if d.gap then "_" else "") + [Sign(d)] + rest, base, afterDigit, acc, any) ==
            ScanDigits(rest, base, true, Push(acc, base, d.value), true)
  {
    var s := [Sign(d)] + rest;
    ScanDigit(d, rest, base, !d.gap && afterDigit, acc, any);
    if d.gap {
      assert "_" + [Sign(d)] + rest == "_" + s && ("_" + s)[1..] == s;
    } else {
      assert "" + [Sign(d)] + rest == s;
    }
  }

  lemma ScanDigit(d: Digit, rest: string, base: nat, afterDigit: bool, acc: nat, any: bool)
    requires d.value < base <= 16
    ensures ScanDigits([Sign(d)] + rest, base, afterDigit, acc, any) ==
            ScanDigits(rest, base, true, Push(acc, base, d.value), true)
  {
    SignValue(d);
    assert ([Sign(d)] + rest)[1..] == rest;
  }

  /** Whatever is scanned is the text of some digits. */
  lemma {:induction false} ScanInverse(s: string, base: nat, afterDigit: bool, acc: nat, any: bool)
    returns (ds: seq<Digit>)
    requires base <= 16 && ScanDigits(s, base, afterDigit, acc, any).Some?
    ensures Below(ds, base) && Text(ds) == s
    ensures if ds == [] then afterDigit && any else ds[0].gap ==> afterDigit
    decreases |s|
  {
    if s == "" {
      ds := [];
    } else if s[0] == '_' {
      var rest := ScanInverse(s[1..], base, false, acc, any);
      ds := [rest[0].(gap := true)] + rest[1..];
      GapText(rest, ds);
      assert s == "_" + s[1..];
    } else {
      var v := DigitValue(s[0]);
      var rest := ScanInverse(s[1..], base, true, Push(acc, base, v), true);
      ValueSign(s[0]);
      ds := [Digit(v, 'A' <= s[0] <= 'Z', false)] + rest;
      assert ds[1..] == rest;
      assert s == [s[0]] + s[1..];
    }
  }

  /** An underscore in front. */
  lemma GapText(ds: seq<Digit>, gapped: seq<Digit>)
    requires ds != [] && !ds[0].gap && Below(ds, 16) && gapped == [ds[0].(gap := true)] + ds[1..]
    ensures Below(gapped, 16) && Text(gapped) == "_" + Text(ds)
  {
    assert gapped[1..] == ds[1..];
    assert Text(ds) == [Sign(ds[0])] + Text(ds[1..]);
  }

  /** The first character of the text of some digits. */
  lemma TextStarts(ds: seq<Digit>)
    requires ds != [] && Below(ds, 16)
    ensures |Text(ds)| >= |ds| && (|ds| == 1 && !ds[0].gap ==> |Text(ds)| == 1)
    ensures Text(ds)[0] == if ds[0].gap then '_' else Sign(ds[0])
  {
    if ds[1..] != [] {
      TextStarts(ds[1..]);
    }
  }

  /** A literal is read as the number it denotes. */
  lemma LiteralIsRead(lit: Literal)
    requires Proper(lit)
    ensures ParseNat(LiteralText(lit)) == Some(Value(lit.ds, BaseOf(lit)))
  {
    var ds, s := lit.ds, LiteralText(lit);
    FoldIsValue(ds, BaseOf(lit));
    TextStarts(ds);
    SignValue(ds[0]);
    match lit {
      case Plain(_) =>
        ScanText(ds, 10, false, 0, false);
      case LeadingZero(_) =>
        assert s[1..] == Text(ds);
        ScanText(ds, 8, true, 0, true);
      case Prefixed(base, upper, _) =>
        PrefixIsRead(base, upper, Text(ds));
        ScanText(ds, base, true, 0, false);
    }
  }

  lemma PrefixIsRead(base: nat, upper: bool, digits: string)
    requires base == 2 || base == 8 || base == 16
    ensures ParseNat(Prefix(base, upper) + digits) == ScanDigits(digits, base, true, 0, false)
  {
    var s := Prefix(base, upper) + digits;
    assert s[2..] == digits && s[0] == '0' && s[1] == Prefix(base, upper)[1];
  }

  /** Whatever is read is a literal. */
  lemma ReadIsLiteral(s: string) returns (lit: Literal)
    requires ParseNat(s).Some?
    ensures Proper(lit) && LiteralText(lit) == s
  {
    if |s| >= 2 && s[0] == '0' {
      if s[1] in "bBoOxX" {
        var base := if s[1] in "bB" then 2 else if s[1] in "oO" then 8 else 16;
        var ds := ScanInverse(s[2..], base, true, 0, false);
        lit := Prefixed(base, s[1] in "BOX", ds);
        assert s == Prefix(base, s[1] in "BOX") + s[2..];
      } else {
        var ds := ScanInverse(s[1..], 8, true, 0, true);
        lit := LeadingZero(ds);
        assert s == "0" + s[1..];
      }
    } else {
      var ds := ScanInverse(s, 10, false, 0, false);
      TextStarts(ds);
      SignValue(ds[0]);
      lit := Plain(ds);
    }
  }

  /** The scanner accepts exactly the literals of the grammar, with the numbers they denote. */
  lemma ReadsExactly(s: string, n: nat)
    ensures ParseNat(s) == Some(n) <==> exists lit: Literal :: Denotes(lit, s, n)
  {
    if ParseNat(s).Some? {
      var lit := ReadIsLiteral(s);
      LiteralIsRead(lit);
      assert Denotes(lit, s, ParseNat(s).value);
    }
    forall lit: Literal | Denotes(lit, s, n)
      ensures ParseNat(s) == Some(n)
    {
      LiteralIsRead(lit);
    }
  }

  function WithoutGaps(ds: seq<Digit>): (r: seq<Digit>) { seq(|ds|, i requires 0 <= i < |ds| => ds[i].(gap := false)) }

  /** Underscores between the digits, and before the first digit of a literal with a prefix or a
      leading zero, change nothing. */
  lemma UnderscoresIgnored(lit: Literal)
    requires Proper(lit)
    ensures Proper(lit.(ds := WithoutGaps(lit.ds)))
    ensures ParseNat(LiteralText(lit)) == ParseNat(LiteralText(lit.(ds := WithoutGaps(lit.ds))))
  {
    var bare := lit.(ds := WithoutGaps(lit.ds));
    SameValue(lit.ds, bare.ds, BaseOf(lit));
    LiteralIsRead(lit);
    LiteralIsRead(bare);
  }

  lemma {:induction false} SameValue(a: seq<Digit>, b: seq<Digit>, base: nat)
    requires |a| == |b| && forall i :: 0 <= i < |a| ==> a[i].value == b[i].value
    ensures Value(a, base) == Value(b, base)
    decreases |a|
  {
    if a != [] {
      SameValue(a[..|a| - 1], b[..|b| - 1], base);
    }
  }

  function Scaled(n: Option<nat>, sign: int): (r: Option<int>) {
    match n
    case None => None
    case Some(v) => Some(sign * v)
  }

  /** A plus sign changes nothing, and a minus sign negates; there is at most one sign. */
  lemma Signs(s: string)
    ensures ParseInt("+" + s) == Scaled(ParseNat(s), 1) && ParseInt("-" + s) == Scaled(ParseNat(s), -1)
    ensures ParseNat("+" + s) == None && ParseNat("-" + s) == None
    ensures s == "" || s[0] !in "+-" ==> ParseInt(s) == Scaled(ParseNat(s), 1)
  {
    assert ("+" + s)[1..] == s && ("-" + s)[1..] == s;
  }

  // ---------- Numerals ----------

  lemma DivMod(n: nat, base: nat)
    requires base >= 2
    ensures n / base * base + n % base == n && n % base < base && (n > 0 ==> n / base < n)
  {
    var q := n / base;
    assert n == base * q + n % base;
    assert base * q >= 2 * q;
  }

  /** The digits of a number. */
  function DigitsOf(n: nat, base: nat, upper: bool): (ds: seq<Digit>)
    requires base >= 2
    ensures ds != [] && Below(ds, base)
  {
    DivMod(n, base);
    if n < base then [Digit(n, upper, false)]
    else DigitsOf(n / base, base, upper) + [Digit(n % base, upper, false)]
  }

  lemma {:induction false} DigitsDenote(n: nat, base: nat, upper: bool)
    requires base >= 2
    ensures Value(DigitsOf(n, base, upper), base) == n
    decreases n
  {
    DivMod(n, base);
    if n < base {
      ValueAppend([], Digit(n, upper, false), base);
    } else {
      DigitsDenote(n / base, base, upper);
      ValueAppend(DigitsOf(n / base, base, upper), Digit(n % base, upper, false), base);
    }
  }

  /** The first digit is not zero, but for the number zero. */
  lemma {:induction false} DigitsStart(n: nat, base: nat, upper: bool)
    requires base >= 2
    ensures var d := DigitsOf(n, base, upper)[0];
            !d.gap && (d.value == 0 <==> n == 0) && (n == 0 ==> |DigitsOf(n, base, upper)| == 1)
    decreases n
  {
    DivMod(n, base);
    if n >= base {
      DigitsStart(n / base, base, upper);
      QuotientPositive(n, base);
    }
  }

  lemma QuotientPositive(n: nat, base: nat)
    requires 2 <= base <= n
    ensures n / base > 0
  {
    DivMod(n, base);
  }

  lemma {:induction false} TextAppend(ds: seq<Digit>, d: Digit)
    requires Below(ds, 16) && d.value < 16 && !d.gap
    ensures Below(ds + [d], 16) && Text(ds + [d]) == Text(ds) + [Sign(d)]
    decreases |ds|
  {
    if ds == [] {
      assert ds + [d] == [d] && [d][1..] == [];
    } else {
      assert (ds + [d])[1..] == ds[1..] + [d];
      TextAppend(ds[1..], d);
    }
  }

  lemma ValueAppend(ds: seq<Digit>, d: Digit, base: nat)
    ensures Value(ds + [d], base) == Value(ds, base) * base + d.value
  {
    assert (ds + [d])[..|ds|] == ds;
  }
}
