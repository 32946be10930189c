/** Hierarchical deterministic wallet derivation paths (accounts/hd.go): parsing and printing. */
module DerivationPath {
  import opened Wrappers
  import opened IntegerLiterals

  const HARDENED: nat := 0x8000_0000
  const MAX_UINT32: nat := 0xFFFF_FFFF

  /** m/44'/60'/0'/0 */
  const DEFAULT_ROOT: seq<nat> := [HARDENED + 44, HARDENED + 60, HARDENED, 0]

  type Path = seq<nat>

  predicate Components32(p: Path) { forall i :: 0 <= i < |p| ==> p[i] <= MAX_UINT32 }

  // ---------- Strings ----------

  /** White space in the sense of Unicode, as trimmed around components. */
  predicate IsSpace(c: char) {
    var u := c as int;
    u == 0x20 || 0x09 <= u <= 0x0D || u == 0x85 || u == 0xA0 || u == 0x1680 || 0x2000 <= u <= 0x200A
    || u == 0x2028 || u == 0x2029 || u == 0x202F || u == 0x205F || u == 0x3000
  }

  /** The characters with the Unicode property White_Space, one by one. */
  lemma WhiteSpaceCharacters(c: char)
    ensures IsSpace(c) <==>
            c as int in {0x09, 0x0A, 0x0B, 0x0C, 0x0D, 0x20, 0x85, 0xA0, 0x1680, 0x2000, 0x2001, 0x2002, 0x2003, 0x2004,
                         0x2005, 0x2006, 0x2007, 0x2008, 0x2009, 0x200A, 0x2028, 0x2029, 0x202F, 0x205F, 0x3000}
  {
  }

  function TrimSpace(s: string): (r: string)
    decreases |s|
  {
    if s != "" && IsSpace(s[0]) then TrimSpace(s[1..])
    else if s != "" && IsSpace(s[|s| - 1]) then TrimSpace(s[..|s| - 1])
    else s
  }

  /** The parts of `s` between separators; at least one. */
  function Split(s: string): (r: seq<string>)
    ensures |r| >= 1
    decreases |s|
  {
    if s == "" then [""] else Prepend(s[0], Split(s[1..]))
  }

  // ---------- Parsing ----------

  /** One component: an optional hardening mark and a number in range, with white space around
      either. */
  function ParseComponent(component: string): (r: Option<nat>)
    ensures r.Some? ==> r.value <= MAX_UINT32
  {
    ParseTrimmed(TrimSpace(component))
  }

  function ParseTrimmed(c: string): (r: Option<nat>)
    ensures r.Some? ==> r.value <= MAX_UINT32
  {
    if c != "" && c[|c| - 1] == '\'' then InRange(HARDENED, TrimSpace(c[..|c| - 1])) else InRange(0, c)
  }

  function InRange(base: nat, digits: string): (r: Option<nat>)
    requires base <= MAX_UINT32
    ensures r.Some? ==> base <= r.value <= MAX_UINT32
  {
    match ParseInt(digits)
    case None => None
    case Some(v) => if v < 0 || v > MAX_UINT32 - base then None else Some(base + v)
  }

  function ParseAll(components: seq<string>): (r: Option<Path>)
    ensures r.Some? ==> |r.value| == |components| && Components32(r.value)
    decreases |components|
  {
    if components == [] then Some([])
    else
      match (ParseAll(components[..|components| - 1]), ParseComponent(components[|components| - 1]))
      case (Some(p), Some(v)) => Some(p + [v])
      case _ => None
  }

  /** The meaning of a path string: absolute after "m", relative to the default root otherwise. */
  function Parsed(path: string): (r: Option<Path>) { Meaning(Split(path)) }

  function Meaning(components: seq<string>): (r: Option<Path>)
    requires |components| >= 1
  {
    var first := TrimSpace(components[0]);
    if first == "" then None
    else if first == "m" then if |components| == 1 then None else ParseAll(components[1..])
    else
      match ParseAll(components)
      case None => None
      case Some(p) => Some(DEFAULT_ROOT + p)
  }

  /** Parses the components one by one, appending each to what is there. */
  method AppendComponents(root: Path, components: seq<string>) returns (r: Option<Path>)
    ensures r == match ParseAll(components) case None => None case Some(p) => Some(root + p)
  {
    var result := root;
    for i := 0 to |components|
      invariant ParseAll(components[..i]).Some? && result == root + ParseAll(components[..i]).value
    {
      assert components[..i + 1][..i] == components[..i];
      var v := ParseComponent(components[i]);
      if v.None? {
        PrefixFails(components, i + 1);
        return None;
      }
      result := result + [v.value];
    }
    assert components[..|components|] == components;
    r := Some(result);
  }

  method ParseDerivationPath(path: string) returns (r: Option<Path>)
    ensures r == Parsed(path)
  {
    var result: Path := [];
    var components := Split(path);
    var first := TrimSpace(components[0]);
    if first == "" {
      return None;
    } else if first == "m" {
      components := components[1..];
    } else {
      result := DEFAULT_ROOT;
    }
    if |components| == 0 {
      return None;
    }
    r := AppendComponents(result, components);
    assert r.Some? && result == [] ==> result + ParseAll(components).value == ParseAll(components).value;
  }

  /** A bad prefix makes the whole list bad. */
  lemma {:induction false} PrefixFails(components: seq<string>, i: nat)
    requires i <= |components| && ParseAll(components[..i]).None?
    ensures ParseAll(components).None?
    decreases |components|
  {
    if i == |components| {
      assert components[..i] == components;
    } else {
      var init := components[..|components| - 1];
      assert init[..i] == components[..i];
      PrefixFails(init, i);
    }
  }

  // ---------- Printing ----------

  function DigitChar(d: nat): (c: char)
    requires d < 10
    ensures DigitValue(c) == d && !IsSpace(c) && c != '/' && c != '\'' && c != '_' && c !in "+-"
    ensures c == '0' <==> d == 0
  {
    ['0', '1', '2', '3', '4', '5', '6', '7', '8', '9'][d]
  }

  function Decimal(n: nat): (s: string)
    ensures |s| >= 1
  {
    if n < 10 then [DigitChar(n)] else Decimal(n / 10) + [DigitChar(n % 10)]
  }

  function PrintComponent(v: nat): (s: string) {
    if v >= HARDENED then Decimal(v - HARDENED) + "'" else Decimal(v)
  }

  /** An absolute path with its components written by `write`. */
  function PrintedAs(p: Path, write: nat -> string): (s: string) {
    if p == [] then "m" else PrintedAs(p[..|p| - 1], write) + "/" + write(p[|p| - 1])
  }

  function Printed(p: Path): (s: string) { PrintedAs(p, PrintComponent) }

  method ToString(p: Path) returns (s: string)
    ensures s == Printed(p)
  {
    s := "m";
    for i := 0 to |p|
      invariant s == Printed(p[..i])
    {
      var component := p[i];
      var hardened := false;
      if component >= HARDENED {
        component := component - HARDENED;
        hardened := true;
      }
      assert p[..i + 1][..i] == p[..i];
      s := s + "/" + Decimal(component);
      if hardened {
        s := s + "'";
      }
    }
    assert p[..|p|] == p;
  }

  // ---------- Round trip ----------

  /** Characters that neither end a component nor are trimmed. */
  predicate Bare(s: string) { forall i :: 0 <= i < |s| ==> !IsSpace(s[i]) && s[i] != '/' && s[i] != '\'' }

  lemma {:induction false} TextIsBare(ds: seq<Digit>)
    requires Below(ds, 16)
    ensures Bare(Text(ds))
    decreases |ds|
  {
    if ds != [] {
      TextIsBare(ds[1..]);
      SignIsBare(ds[0]);
    }
  }

  lemma SignIsBare(d: Digit)
    requires d.value < 16
    ensures !IsSpace(Sign(d)) && Sign(d) != '/' && Sign(d) != '\'' && Sign(d) !in "+-"
  {
    SignValue(d);
  }

  /** A literal is not empty, has no white space, separator or mark, and starts with no sign. */
  lemma LiteralIsBare(lit: Literal)
    requires Proper(lit)
    ensures Bare(LiteralText(lit)) && LiteralText(lit) != "" && LiteralText(lit)[0] !in "+-"
  {
    TextIsBare(lit.ds);
    TextStarts(lit.ds);
    SignIsBare(lit.ds[0]);
  }

  /** Decimal numerals are literals of the number. */
  lemma DecimalIsLiteral(n: nat)
    ensures Denotes(Plain(DigitsOf(n, 10, false)), Decimal(n), n)
  {
    DigitsDenote(n, 10, false);
    DigitsStart(n, 10, false);
    DecimalText(n);
  }

  lemma {:induction false} DecimalText(n: nat)
    ensures Text(DigitsOf(n, 10, false)) == Decimal(n)
    decreases n
  {
    var d := Digit(n % 10, false, false);
    assert Sign(d) == DigitChar(n % 10);
    if n < 10 {
      assert DigitsOf(n, 10, false) == [d] && [d][1..] == [];
    } else {
      DecimalText(n / 10);
      TextAppend(DigitsOf(n / 10, 10, false), d);
    }
  }

  lemma TrimNothing(s: string)
    requires s != "" && !IsSpace(s[0]) && !IsSpace(s[|s| - 1])
    ensures TrimSpace(s) == s
  {
  }

  predicate Blank(s: string) { forall i :: 0 <= i < |s| ==> IsSpace(s[i]) }

  lemma {:induction false} TrimAfter(s: string, c: char)
    requires IsSpace(c)
    ensures TrimSpace(s + [c]) == TrimSpace(s)
    decreases |s|
  {
    if s == "" {
      assert (s + [c])[1..] == "";
    } else if IsSpace(s[0]) {
      assert (s + [c])[1..] == s[1..] + [c];
      TrimAfter(s[1..], c);
    } else {
      assert (s + [c])[..|s|] == s;
    }
  }

  lemma {:induction false} TrimAround(left: string, s: string, right: string)
    requires Blank(left) && Blank(right)
    ensures TrimSpace(left + s + right) == TrimSpace(s)
    decreases |left| + |right|
  {
    if left != "" {
      assert (left + s + right)[1..] == left[1..] + s + right;
      TrimAround(left[1..], s, right);
    } else if right != "" {
      var k := |right| - 1;
      assert left + s + right == (left + s + right[..k]) + [right[k]];
      TrimAfter(left + s + right[..k], right[k]);
      TrimAround(left, s, right[..k]);
    } else {
      assert left + s + right == s;
    }
  }

  /** White space around a component is ignored. */
  lemma WhiteSpaceIgnored(left: string, component: string, right: string)
    requires Blank(left) && Blank(right)
    ensures ParseComponent(left + component + right) == ParseComponent(component)
  {
    TrimAround(left, component, right);
  }

  // ---------- Components ----------

  /** A component as it may be written: white space, a sign, a literal, the hardening mark with white
      space before it, and white space. */
  datatype Component = Component(left: string, sign: string, lit: Literal, mark: Option<string>, right: string)

  predicate ProperComponent(x: Component) {
    && Blank(x.left) && Blank(x.right) && (x.mark.Some? ==> Blank(x.mark.value))
    && IsSign(x.sign) && Proper(x.lit)
  }

  function MarkText(mark: Option<string>): (s: string) { if mark.Some? then mark.value + "'" else "" }

  function ComponentText(x: Component): (s: string)
    requires Proper(x.lit)
  {
    x.left + (x.sign + LiteralText(x.lit) + MarkText(x.mark)) + x.right
  }

  /** What it means: a number of 32 bits, or of 31 bits when it is hardened, and not negative. */
  function ComponentValue(x: Component): (r: Option<nat>) {
    Ranged(x.sign, Value(x.lit.ds, BaseOf(x.lit)), x.mark.Some?)
  }

  function Ranged(sign: string, n: nat, hardened: bool): (r: Option<nat>) {
    var base := if hardened then 0x8000_0000 else 0;
    if (sign == "-" && n > 0) || base + n > 0xFFFF_FFFF then None else Some(base + n)
  }

  predicate IsSign(sign: string) { sign == "" || sign == "+" || sign == "-" }

  /** String `s` is read as the unsigned number `n`. */
  predicate Unsigned(s: string, n: nat) { ParseNat(s) == Some(n) && Bare(s) && s != "" && s[0] !in "+-" }

  /** Number and sign without white space or mark. */
  lemma CoreIsRead(sign: string, digits: string, n: nat, hardened: bool)
    requires IsSign(sign) && Unsigned(digits, n)
    ensures Bare(sign + digits)
    ensures InRange(if hardened then HARDENED else 0, sign + digits) == Ranged(sign, n, hardened)
  {
    SignIsRead(sign, digits, n);
    SignedIsBare(sign, digits);
  }

  lemma SignIsRead(sign: string, digits: string, n: nat)
    requires IsSign(sign) && Unsigned(digits, n)
    ensures ParseInt(sign + digits) == Some(if sign == "-" then -(n as int) else n as int)
  {
    Signs(digits);
    assert "" + digits == digits;
  }

  lemma SignedIsBare(sign: string, digits: string)
    requires IsSign(sign) && Bare(digits)
    ensures Bare(sign + digits)
  {
  }

  /** White space around, and before the mark, is ignored. */
  lemma MarkIsRead(left: string, core: string, mark: Option<string>, right: string)
    requires Blank(left) && Blank(right) && (mark.Some? ==> Blank(mark.value)) && Bare(core) && core != ""
    ensures ParseComponent(left + (core + MarkText(mark)) + right) ==
            InRange(if mark.Some? then HARDENED else 0, core)
  {
    var c := core + MarkText(mark);
    TrimAround(left, c, right);
    TrimNothing(c);
    TrimNothing(core);
    if mark.Some? {
      assert c[..|c| - 1] == "" + core + mark.value;
      TrimAround("", core, mark.value);
    } else {
      assert c == core;
    }
  }

  lemma LiteralIsUnsigned(lit: Literal)
    requires Proper(lit)
    ensures Unsigned(LiteralText(lit), Value(lit.ds, BaseOf(lit)))
  {
    LiteralIsBare(lit);
    LiteralIsRead(lit);
  }

  /** A component is read as what it means, also when it is out of range. */
  lemma ComponentIsRead(x: Component)
    requires ProperComponent(x)
    ensures ParseComponent(ComponentText(x)) == ComponentValue(x)
  {
    LiteralIsUnsigned(x.lit);
    CoreIsRead(x.sign, LiteralText(x.lit), Value(x.lit.ds, BaseOf(x.lit)), x.mark.Some?);
    MarkIsRead(x.left, x.sign + LiteralText(x.lit), x.mark, x.right);
  }

  /** What trimming takes off is white space, and what is left starts and ends with none. */
  lemma {:induction false} TrimSplits(s: string) returns (left: string, right: string)
    ensures Blank(left) && Blank(right) && s == left + TrimSpace(s) + right
    ensures var t := TrimSpace(s); t != "" ==> !IsSpace(t[0]) && !IsSpace(t[|t| - 1])
    decreases |s|
  {
    if s != "" && IsSpace(s[0]) {
      left, right := TrimSplits(s[1..]);
      AddLeft(s, left, TrimSpace(s), right);
      left := [s[0]] + left;
    } else if s != "" && IsSpace(s[|s| - 1]) {
      left, right := TrimSplits(s[..|s| - 1]);
      AddRight(s, left, TrimSpace(s), right);
      right := right + [s[|s| - 1]];
    } else {
      left, right := "", "";
    }
  }

  lemma AddLeft(s: string, left: string, t: string, right: string)
    requires s != "" && IsSpace(s[0]) && s[1..] == left + t + right && Blank(left)
    ensures Blank([s[0]] + left) && s == [s[0]] + left + t + right
  {
    assert s == [s[0]] + s[1..];
  }

  lemma AddRight(s: string, left: string, t: string, right: string)
    requires s != "" && IsSpace(s[|s| - 1]) && s[..|s| - 1] == left + t + right && Blank(right)
    ensures Blank(right + [s[|s| - 1]]) && s == left + t + (right + [s[|s| - 1]])
  {
    assert s == s[..|s| - 1] + [s[|s| - 1]];
  }

  /** Whatever is read as an integer is a literal with at most one sign. */
  lemma IntegerIsSigned(s: string) returns (sign: string, lit: Literal)
    requires ParseInt(s).Some?
    ensures IsSign(sign) && Proper(lit) && s == sign + LiteralText(lit)
  {
    if s != "" && s[0] in "+-" {
      sign := [s[0]];
      lit := ReadIsLiteral(s[1..]);
    } else {
      sign := "";
      lit := ReadIsLiteral(s);
    }
  }

  /** Whatever is accepted as a component is one. */
  lemma ReadIsComponent(s: string) returns (x: Component)
    requires ParseComponent(s).Some?
    ensures ProperComponent(x) && ComponentText(x) == s
  {
    var left, right := TrimSplits(s);
    var core, mark := CoreOf(TrimSpace(s));
    var sign, lit := IntegerIsSigned(core);
    x := Component(left, sign, lit, mark, right);
  }

  /** A trimmed component is an integer, with or without the mark. */
  lemma CoreOf(t: string) returns (core: string, mark: Option<string>)
    requires (t != "" ==> !IsSpace(t[0])) && ParseTrimmed(t).Some?
    ensures (mark.Some? ==> Blank(mark.value)) && t == core + MarkText(mark) && ParseInt(core).Some?
  {
    if t != "" && t[|t| - 1] == '\'' {
      var blanks;
      core, blanks := MarkedCore(t);
      mark := Some(blanks);
      assert core + blanks + "'" == core + (blanks + "'");
    } else {
      core, mark := t, None;
      assert t + "" == t;
    }
  }

  lemma MarkedCore(t: string) returns (core: string, mark: string)
    requires t != "" && t[|t| - 1] == '\'' && !IsSpace(t[0]) && ParseTrimmed(t).Some?
    ensures Blank(mark) && t == core + mark + "'" && ParseInt(core).Some?
  {
    var body := t[..|t| - 1];
    var left, right := TrimSplits(body);
    core, mark := TrimSpace(body), right;
    assert t == body + "'";
    NoBlankStart(left, core + mark);
    assert body == left + (core + mark);
    assert "" + core + mark == core + mark;
  }

  lemma NoBlankStart(left: string, rest: string)
    requires Blank(left) && (left + rest == "" || !IsSpace((left + rest)[0]))
    ensures left == ""
  {
  }

  /** Component `x` is written `s` and means `v`. */
  predicate Means(x: Component, s: string, v: nat) {
    ProperComponent(x) && ComponentText(x) == s && ComponentValue(x) == Some(v)
  }

  /** A component is accepted exactly if it is written by the rules, with the value they give. */
  lemma ComponentExactly(s: string, v: nat)
    ensures ParseComponent(s) == Some(v) <==> exists x: Component :: Means(x, s, v)
  {
    if ParseComponent(s).Some? {
      var x := ReadIsComponent(s);
      ComponentIsRead(x);
      assert Means(x, s, ParseComponent(s).value);
    }
    forall x: Component | Means(x, s, v)
      ensures ParseComponent(s) == Some(v)
    {
      ComponentIsRead(x);
    }
  }

  /** A component of a path, written with the given literal of its number. */
  function WithMark(v: nat, digits: string): (s: string) { if v >= HARDENED then digits + "'" else digits }

  function Unhardened(v: nat): (n: nat) { if v >= HARDENED then v - HARDENED else v }

  /** Any literal of the number will do. */
  lemma LiteralComponent(v: nat, lit: Literal)
    requires v <= MAX_UINT32 && Proper(lit) && Value(lit.ds, BaseOf(lit)) == Unhardened(v)
    ensures ParseComponent(WithMark(v, LiteralText(lit))) == Some(v) && NoSlash(WithMark(v, LiteralText(lit)))
  {
    LiteralIsUnsigned(lit);
    DigitsComponent(v, LiteralText(lit));
  }

  lemma DigitsComponent(v: nat, digits: string)
    requires v <= MAX_UINT32 && Unsigned(digits, Unhardened(v))
    ensures ParseComponent(WithMark(v, digits)) == Some(v) && NoSlash(WithMark(v, digits))
  {
    var mark := if v >= HARDENED then Some("") else None;
    CoreIsRead("", digits, Unhardened(v), v >= HARDENED);
    assert "" + digits == digits;
    MarkIsRead("", digits, mark, "");
    assert "" + (digits + MarkText(mark)) + "" == WithMark(v, digits);
  }

  lemma ParsePrintedComponent(v: nat)
    requires v <= MAX_UINT32
    ensures ParseComponent(PrintComponent(v)) == Some(v) && NoSlash(PrintComponent(v))
  {
    DecimalIsLiteral(Unhardened(v));
    LiteralComponent(v, Plain(DigitsOf(Unhardened(v), 10, false)));
  }

  /** A component written in base 2, 8 or 16 with its prefix, in upper or lower case. */
  function InBase(v: nat, base: nat, upperPrefix: bool, upperDigits: bool): (s: string)
    requires base == 2 || base == 8 || base == 16
  {
    WithMark(v, LiteralText(Prefixed(base, upperPrefix, DigitsOf(Unhardened(v), base, upperDigits))))
  }

  lemma ParseInBase(v: nat, base: nat, upperPrefix: bool, upperDigits: bool)
    requires v <= MAX_UINT32 && (base == 2 || base == 8 || base == 16)
    ensures var s := InBase(v, base, upperPrefix, upperDigits);
            ParseComponent(s) == Some(v) && NoSlash(s)
  {
    DigitsDenote(Unhardened(v), base, upperDigits);
    LiteralComponent(v, Prefixed(base, upperPrefix, DigitsOf(Unhardened(v), base, upperDigits)));
  }

  predicate NoSlash(s: string) { forall i :: 0 <= i < |s| ==> s[i] != '/' }

  lemma {:induction false} SplitPlain(s: string)
    requires NoSlash(s)
    ensures Split(s) == [s]
    decreases |s|
  {
    if s != "" {
      SplitPlain(s[1..]);
      assert [s[0]] + s[1..] == s;
    }
  }

  /** Putting a character in front of a string. */
  function Prepend(c: char, parts: seq<string>): (r: seq<string>)
    requires |parts| >= 1
  {
    if c == '/' then [""] + parts else [[c] + parts[0]] + parts[1..]
  }

  lemma PrependConcat(c: char, a: seq<string>, b: seq<string>)
    requires |a| >= 1
    ensures Prepend(c, a + b) == Prepend(c, a) + b
  {
    assert (a + b)[1..] == a[1..] + b;
  }

  /** The parts of two strings joined by a separator are the parts of both. */
  lemma {:induction false} SplitJoin(s: string, t: string)
    ensures Split(s + "/" + t) == Split(s) + Split(t)
    decreases |s|
  {
    var all := s + "/" + t;
    if s == "" {
      assert all[1..] == t;
    } else {
      SplitJoin(s[1..], t);
      assert all[1..] == s[1..] + "/" + t;
      PrependConcat(s[0], Split(s[1..]), Split(t));
    }
  }

  lemma ParseAllAppend(components: seq<string>, c: string)
    ensures ParseAll(components + [c]) == Appended(ParseAll(components), ParseComponent(c))
  {
    assert (components + [c])[..|components|] == components;
  }

  /** `s` is absolute and its components denote `p`. */
  predicate Absolute(s: string, p: Path) { Split(s)[0] == "m" && ParseAll(Split(s)[1..]) == Some(p) }

  lemma AbsoluteAppend(s: string, p: Path, c: string, v: nat)
    requires Absolute(s, p) && NoSlash(c) && ParseComponent(c) == Some(v)
    ensures Absolute(s + "/" + c, p + [v])
  {
    var parts := Split(s);
    SplitOne(s, c);
    ParseAllAppend(parts[1..], c);
    assert (parts + [c])[1..] == parts[1..] + [c];
  }

  /** Every component of the path is read back from how `write` writes it. */
  predicate ReadBack(p: Path, write: nat -> string) {
    forall i :: 0 <= i < |p| ==> NoSlash(write(p[i])) && ParseComponent(write(p[i])) == Some(p[i])
  }

  lemma {:induction false} PrintedIsAbsolute(p: Path, write: nat -> string)
    requires ReadBack(p, write)
    ensures Absolute(PrintedAs(p, write), p)
    decreases |p|
  {
    if p == [] {
      SplitPlain("m");
    } else {
      var k := |p| - 1;
      PrintedIsAbsolute(p[..k], write);
      AbsoluteAppend(PrintedAs(p[..k], write), p[..k], write(p[k]), p[k]);
      assert p[..k] + [p[k]] == p;
    }
  }

  lemma ReadsBack(p: Path, write: nat -> string)
    requires ReadBack(p, write)
    ensures Parsed(PrintedAs(p, write)) == Some(p) <==> p != []
  {
    PrintedIsAbsolute(p, write);
    assert TrimSpace("m") == "m";
  }

  lemma DecimalReadBack(p: Path)
    requires Components32(p)
    ensures ReadBack(p, PrintComponent)
  {
    forall i | 0 <= i < |p|
      ensures NoSlash(PrintComponent(p[i])) && ParseComponent(PrintComponent(p[i])) == Some(p[i])
    {
      ParsePrintedComponent(p[i]);
    }
  }

  /** Round trip: parsing the printed form of a path of 32-bit components returns the path, if
      and only if it is not empty. */
  lemma RoundTrip(p: Path)
    requires Components32(p)
    ensures Parsed(Printed(p)) == Some(p) <==> p != []
  {
    DecimalReadBack(p);
    ReadsBack(p, PrintComponent);
  }

  /** The same for a path written in base 2, 8 or 16. */
  lemma RoundTripInBase(p: Path, base: nat, upperPrefix: bool, upperDigits: bool)
    requires Components32(p) && (base == 2 || base == 8 || base == 16)
    ensures Parsed(PrintedAs(p, (v: nat) => InBase(v, base, upperPrefix, upperDigits))) == Some(p) <==> p != []
  {
    var write := (v: nat) => InBase(v, base, upperPrefix, upperDigits);
    forall i | 0 <= i < |p|
      ensures NoSlash(write(p[i])) && ParseComponent(write(p[i])) == Some(p[i])
    {
      ParseInBase(p[i], base, upperPrefix, upperDigits);
    }
    ReadsBack(p, write);
  }

  // ---------- Absolute paths as they may be written ----------

  predicate AllProper(xs: seq<Component>) { forall i :: 0 <= i < |xs| ==> ProperComponent(xs[i]) }

  /** "m" with white space around it, and components. */
  function Written(left: string, right: string, xs: seq<Component>): (s: string)
    requires AllProper(xs)
  {
    if xs == [] then left + "m" + right
    else Written(left, right, xs[..|xs| - 1]) + "/" + ComponentText(xs[|xs| - 1])
  }

  function Texts(xs: seq<Component>): (r: seq<string>)
    requires AllProper(xs)
  {
    if xs == [] then [] else Texts(xs[..|xs| - 1]) + [ComponentText(xs[|xs| - 1])]
  }

  /** The values of the components, if all have one. */
  function Values(xs: seq<Component>): (r: Option<Path>) {
    if xs == [] then Some([])
    else Appended(Values(xs[..|xs| - 1]), ComponentValue(xs[|xs| - 1]))
  }

  function Appended(p: Option<Path>, v: Option<nat>): (r: Option<Path>) {
    if p.Some? && v.Some? then Some(p.value + [v.value]) else None
  }

  lemma ComponentHasNoSlash(x: Component)
    requires ProperComponent(x)
    ensures NoSlash(ComponentText(x))
  {
    LiteralIsBare(x.lit);
    SignedIsBare(x.sign, LiteralText(x.lit));
    BlankHasNoSlash(x.left);
    BlankHasNoSlash(x.right);
    BlankHasNoSlash(if x.mark.Some? then x.mark.value else "");
    assert NoSlash(MarkText(x.mark)) && NoSlash(x.sign + LiteralText(x.lit));
  }

  lemma BlankHasNoSlash(s: string)
    requires Blank(s)
    ensures NoSlash(s)
  {
    assert !IsSpace('/');
  }

  /** The parts of such a path are "m" and the components. */
  lemma {:induction false} SplitWritten(left: string, right: string, xs: seq<Component>)
    requires Blank(left) && Blank(right) && AllProper(xs)
    ensures Split(Written(left, right, xs)) == [left + "m" + right] + Texts(xs)
    decreases |xs|
  {
    if xs == [] {
      BlankHasNoSlash(left);
      BlankHasNoSlash(right);
      SplitPlain(left + "m" + right);
    } else {
      var k := |xs| - 1;
      SplitWritten(left, right, xs[..k]);
      ComponentHasNoSlash(xs[k]);
      SplitOne(Written(left, right, xs[..k]), ComponentText(xs[k]));
    }
  }

  lemma SplitOne(s: string, c: string)
    requires NoSlash(c)
    ensures Split(s + "/" + c) == Split(s) + [c]
  {
    SplitJoin(s, c);
    SplitPlain(c);
  }

  lemma {:induction false} AllAreRead(xs: seq<Component>)
    requires AllProper(xs)
    ensures ParseAll(Texts(xs)) == Values(xs)
    decreases |xs|
  {
    if xs != [] {
      var k := |xs| - 1;
      AllAreRead(xs[..k]);
      ComponentIsRead(xs[k]);
      ParseAllAppend(Texts(xs[..k]), ComponentText(xs[k]));
    }
  }

  /** Such a path is read as the values of its components, and rejected if one has none. */
  lemma PathIsRead(left: string, right: string, xs: seq<Component>)
    requires Blank(left) && Blank(right) && xs != [] && AllProper(xs)
    ensures Parsed(Written(left, right, xs)) == Values(xs)
  {
    var first := left + "m" + right;
    SplitWritten(left, right, xs);
    TrimAround(left, "m", right);
    assert TrimSpace("m") == "m";
    assert ([first] + Texts(xs))[1..] == Texts(xs);
    AllAreRead(xs);
  }

  /** Every accepted string denotes a non-empty path of 32-bit components, and printing that
      path gives a string with the same meaning. */
  lemma AcceptedNormalises(path: string)
    requires Parsed(path).Some?
    ensures Parsed(path).value != [] && Components32(Parsed(path).value)
    ensures Parsed(Printed(Parsed(path).value)) == Parsed(path)
  {
    RoundTrip(Parsed(path).value);
  }

  function Joined(a: Option<Path>, b: Option<Path>): (r: Option<Path>) {
    if a.Some? && b.Some? then Some(a.value + b.value) else None
  }

  lemma {:induction false} ParseAllConcat(a: seq<string>, b: seq<string>)
    ensures ParseAll(a + b) == Joined(ParseAll(a), ParseAll(b))
    decreases |b|
  {
    if b == [] {
      assert a + b == a;
      assert ParseAll(a).Some? ==> ParseAll(a).value + [] == ParseAll(a).value;
    } else {
      var init, last := b[..|b| - 1], b[|b| - 1];
      ParseAllConcat(a, init);
      assert (a + b)[..|a + b| - 1] == a + init && (a + b)[|a + b| - 1] == last;
      var pa, pb, v := ParseAll(a), ParseAll(init), ParseComponent(last);
      if pa.Some? && pb.Some? && v.Some? {
        assert pa.value + (pb.value + [v.value]) == (pa.value + pb.value) + [v.value];
      }
    }
  }

  /** A path is relative when its first component is neither blank nor "m". */
  predicate Relative(path: string) { TrimSpace(Split(path)[0]) != "" && TrimSpace(Split(path)[0]) != "m" }

  /** A relative path means what it means below the default root, also when it is rejected. */
  lemma RelativeIsBelowDefaultRoot(path: string)
    requires Relative(path)
    ensures Parsed(path) == Parsed(Printed(DEFAULT_ROOT) + "/" + path)
  {
    var root := Printed(DEFAULT_ROOT);
    DecimalReadBack(DEFAULT_ROOT);
    PrintedIsAbsolute(DEFAULT_ROOT, PrintComponent);
    BelowAbsolute(root, DEFAULT_ROOT, path);
  }

  lemma BelowAbsolute(s: string, p: Path, path: string)
    requires Absolute(s, p)
    ensures Parsed(s + "/" + path) == Joined(Some(p), ParseAll(Split(path)))
  {
    SplitJoin(s, path);
    MeaningConcat(Split(s), Split(path));
  }

  lemma MasterIsAbsolute(components: seq<string>)
    requires |components| >= 2 && components[0] == "m"
    ensures Meaning(components) == ParseAll(components[1..])
  {
    assert TrimSpace("m") == "m";
  }

  lemma MeaningConcat(a: seq<string>, b: seq<string>)
    requires |a| >= 1 && |b| >= 1 && a[0] == "m"
    ensures Meaning(a + b) == Joined(ParseAll(a[1..]), ParseAll(b))
  {
    assert (a + b)[1..] == a[1..] + b;
    ParseAllConcat(a[1..], b);
    MasterIsAbsolute(a + b);
  }
}
