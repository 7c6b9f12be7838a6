/**
 * PHP's loosely typed values as they arrive from requests, database rows and
 * decoded JSON, and the conversions the modelled code applies to them:
 * isset/??, is_array, is_numeric, the (int) and (string) casts, and
 * filter_var with FILTER_VALIDATE_INT and FILTER_VALIDATE_FLOAT.
 */
module PhpValues {
  import opened Wrappers
  import opened PhpStrings
  import opened OrderedMaps

  const PhpIntMax: int := 0x7FFF_FFFF_FFFF_FFFF
  const PhpIntMin: int := -0x8000_0000_0000_0000

  /** PHP's 64-bit integer. */
  type PhpInt = i: int | PhpIntMin <= i <= PhpIntMax

  /** An array key: PHP keys are integers or strings. */
  datatype Key = IntKey(i: PhpInt) | StrKey(s: string)

  /**
   * A PHP value. A float is carried by the text PHP renders it as, which is
   * what every conversion below starts from; an array is its ordered entries.
   */
  datatype Value =
    | Null
    | Bool(b: bool)
    | Int(i: PhpInt)
    | Flt(repr: string)
    | Str(s: string)
    | Arr(entries: Assoc<Key, Value>)

  /** A request or database row: an array with string keys. */
  type Row = map<string, Value>

  /** An array key as the value foreach hands out for it. */
  function KeyValue(k: Key): Value {
    match k
    case IntKey(i) => Int(i)
    case StrKey(s) => Str(s)
  }

  /**
   * A float field: the value (float) was applied to, kept as it is because
   * float arithmetic is outside this model; Computed stands for an amount
   * produced by such arithmetic.
   */
  datatype Float = FloatOf(source: Value) | Computed

  /** The TypeError raised when, under strict_types, an argument has a type the parameter does not accept. */
  datatype TypeError = TypeError

  /** $row['name'] read without a notice: None when the key is absent. */
  function Field(row: Row, name: string): Option<Value> {
    if name in row then Some(row[name]) else None
  }

  /** $v[$k] under isset/??: None unless v is an array holding k. */
  function Index(v: Value, k: Key): Option<Value> {
    if v.Arr? then Get(v.entries, k) else None
  }

  /** isset(...): present and not null. */
  predicate IsSet(o: Option<Value>) {
    o.Some? && o.value != Null
  }

  /** The ?? operator. */
  function Coalesce(o: Option<Value>, default: Value): (r: Value)
    ensures IsSet(o) ==> r == o.value
    ensures !IsSet(o) ==> r == default
  {
    if o.Some? && o.value != Null then o.value else default
  }

  /** The value of the first of two keys that is set, else the default: $row[k1] ?? $row[k2] ?? default. */
  function FirstSet(row: Row, k1: string, k2: string, default: Value): (r: Value)
    ensures IsSet(Field(row, k1)) ==> r == row[k1]
    ensures !IsSet(Field(row, k1)) && IsSet(Field(row, k2)) ==> r == row[k2]
    ensures !IsSet(Field(row, k1)) && !IsSet(Field(row, k2)) ==> r == default
  {
    Coalesce(Field(row, k1), Coalesce(Field(row, k2), default))
  }

  function Pow10(n: nat): (r: nat)
    ensures r >= 1
  {
    if n == 0 then 1 else 10 * Pow10(n - 1)
  }

  /**
   * A decimal literal at the start of a string, in PHP's numeric-string
   * grammar [+-] (D+ ['.' D*] | '.' D+) [(e|E) [+-] D+]; length is the number
   * of characters it spans.
   */
  datatype Literal = Literal(negative: bool, whole: string, fraction: string, exponent: int, length: nat)

  predicate ValidLiteral(l: Literal) {
    AllDigits(l.whole) && AllDigits(l.fraction) && |l.whole| + |l.fraction| > 0 && l.length > 0
  }

  /** The exponent part "e[+-]D+" at the start of s, as its value and length (0 when absent). */
  function ScanExponent(s: string): (r: (int, nat))
    ensures r.1 <= |s|
    ensures r.1 == 0 ==> r.0 == 0
    ensures s == [] || (s[0] != 'e' && s[0] != 'E') ==> r.1 == 0
  {
    if s != [] && (s[0] == 'e' || s[0] == 'E') then
      var signLen := if |s| > 1 && (s[1] == '+' || s[1] == '-') then 1 else 0;
      var digits := LeadingDigits(s[1 + signLen..]);
      if digits == [] then (0, 0)
      else
        var magnitude: int := DigitsValue(digits);
        (if signLen == 1 && s[1] == '-' then -magnitude else magnitude, 1 + signLen + |digits|)
    else (0, 0)
  }

  /** The length of an optional sign at the start of s. */
  function SignLength(s: string): (n: nat)
    ensures n <= |s|
  {
    if s != [] && (s[0] == '+' || s[0] == '-') then 1 else 0
  }

  /** The digits "D+ ['.' D*] | '.' D+" at the start of t: whole part, fraction and length spanned. */
  function ScanMantissa(t: string): (r: (string, string, nat))
    ensures AllDigits(r.0) && AllDigits(r.1) && r.2 <= |t|
    ensures |r.0| + |r.1| > 0 ==> r.2 > 0
  {
    var whole := LeadingDigits(t);
    var afterWhole := t[|whole|..];
    var hasPoint := afterWhole != [] && afterWhole[0] == '.';
    var fraction := if hasPoint then LeadingDigits(afterWhole[1..]) else [];
    (whole, fraction, |whole| + (if hasPoint then 1 + |fraction| else 0))
  }

  /** The longest decimal literal at the start of s, if s starts with one. */
  function ScanLiteral(s: string): (r: Option<Literal>)
    ensures r.Some? ==> ValidLiteral(r.value) && r.value.length <= |s|
  {
    var signLen := SignLength(s);
    var m := ScanMantissa(s[signLen..]);
    if |m.0| + |m.1| == 0 then None
    else
      var exponent := ScanExponent(s[signLen + m.2..]);
      Some(Literal(signLen == 1 && s[0] == '-', m.0, m.1, exponent.0, signLen + m.2 + exponent.1))
  }

  /** The exact number a literal denotes. */
  function LiteralValue(l: Literal): real
    requires ValidLiteral(l)
  {
    var scale := Pow10(|l.fraction|);
    var mantissa := (DigitsValue(l.whole) * scale + DigitsValue(l.fraction)) as real / scale as real;
    var magnitude :=
      if l.exponent >= 0 then mantissa * Pow10(l.exponent) as real
      else mantissa / Pow10(-l.exponent) as real;
    if l.negative then -magnitude else magnitude
  }

  /** Conversion of a real to an integer, dropping the fraction (toward zero, as C does). */
  function TruncateReal(x: real): (i: int)
    ensures x >= 0.0 ==> i as real <= x < i as real + 1.0
    ensures x < 0.0 ==> i as real - 1.0 < x <= i as real
  {
    if x >= 0.0 then x.Floor else -((-x).Floor)
  }

  /** PHP's (int) of a numeric string clamps to the 64-bit range. */
  function Saturate(i: int): (r: PhpInt)
    ensures PhpIntMin <= i <= PhpIntMax ==> r == i
    ensures i > PhpIntMax ==> r == PhpIntMax
    ensures i < PhpIntMin ==> r == PhpIntMin
  {
    if i > PhpIntMax then PhpIntMax else if i < PhpIntMin then PhpIntMin else i
  }

  /** is_numeric() of a string: optional leading and trailing whitespace around one decimal literal. */
  predicate IsNumericString(s: string) {
    var t := StripLeft(s, PcreSpaces);
    var l := ScanLiteral(t);
    l.Some? && AllBlank(t[l.value.length..], PcreSpaces)
  }

  /** is_numeric(). */
  predicate IsNumeric(v: Value) {
    match v
    case Int(_) => true
    case Flt(_) => true
    case Str(s) => IsNumericString(s)
    case _ => false
  }

  /** (int) of a string: the value of its leading numeric part, or 0 when there is none. */
  function IntCastString(s: string): PhpInt {
    var t := StripLeft(s, PcreSpaces);
    match ScanLiteral(t)
    case None => 0
    case Some(l) => LiteralInt(l)
  }

  /**
   * 2^1024 - 2^970, halfway between the largest double and 2^1024: a decimal
   * literal of at least this magnitude rounds to an infinite double.
   */
  const DoubleOverflow: int := 179769313486231580793728971405303415079934132710037826936173778980444968292764750946649017977587207096330286416692887910946555547851940402630657488671505820681908902000708383676273854845817711531764475730270069855571366959622842914819860834936475292719074168444365510704342711559699508093042880177904174497792

  /** The literal's double is infinite, so a numeric string holding it reads as INF or -INF. */
  predicate Overflows(l: Literal)
    requires ValidLiteral(l)
  {
    LiteralValue(l) >= DoubleOverflow as real || LiteralValue(l) <= -(DoubleOverflow as real)
  }

  /**
   * The integer (int) makes of a literal: 0 when its double is infinite, and
   * otherwise its value truncated toward zero and clamped to the 64-bit range.
   */
  function LiteralInt(l: Literal): (r: PhpInt)
    requires ValidLiteral(l)
    ensures Overflows(l) ==> r == 0
    ensures !Overflows(l) && PhpIntMin <= TruncateReal(LiteralValue(l)) <= PhpIntMax ==> r == TruncateReal(LiteralValue(l))
    ensures !Overflows(l) && TruncateReal(LiteralValue(l)) > PhpIntMax ==> r == PhpIntMax
    ensures !Overflows(l) && TruncateReal(LiteralValue(l)) < PhpIntMin ==> r == PhpIntMin
  {
    if Overflows(l) then 0 else Saturate(TruncateReal(LiteralValue(l)))
  }

  /** A string that starts with neither whitespace, a sign, a digit nor a point casts to 0. */
  lemma IntCastWithoutDigits(s: string)
    requires s != [] && !IsPcreSpace(s[0]) && !IsDigit(s[0]) && s[0] != '+' && s[0] != '-' && s[0] != '.'
    ensures IntCastString(s) == 0
  {
    assert StripLeft(s, PcreSpaces) == s;
    assert LeadingDigits(s) == [];
  }

  /** The 64-bit integer congruent to i modulo 2^64. */
  function Wrap(i: int): (r: PhpInt)
    ensures PhpIntMin <= i <= PhpIntMax ==> r == i
    ensures (i - r) % 0x1_0000_0000_0000_0000 == 0
  {
    (i - PhpIntMin) % 0x1_0000_0000_0000_0000 + PhpIntMin
  }

  /**
   * (int) of a finite float a literal denotes: truncated toward zero and,
   * outside the 64-bit range, wrapped modulo 2^64 instead of saturating as
   * (int) of a string does.
   */
  function LiteralWrappedInt(l: Literal): (r: PhpInt)
    requires ValidLiteral(l)
    ensures (r - TruncateReal(LiteralValue(l))) % 0x1_0000_0000_0000_0000 == 0
    ensures PhpIntMin <= TruncateReal(LiteralValue(l)) <= PhpIntMax ==> r == LiteralInt(l)
  {
    Wrap(TruncateReal(LiteralValue(l)))
  }

  /** (int) of a float, given by its decimal text: INF, -INF and NAN, which are no literal, give 0. */
  function FloatIntCast(repr: string): (r: PhpInt)
    ensures ScanLiteral(repr).None? ==> r == 0
    ensures ScanLiteral(repr).Some? ==> r == LiteralWrappedInt(ScanLiteral(repr).value)
  {
    match ScanLiteral(repr)
    case None => 0
    case Some(l) => LiteralWrappedInt(l)
  }

  /** A text whose first character after an optional sign is neither a digit nor a point holds no literal. */
  lemma NoLiteralWithoutDigits(s: string)
    requires var t := s[SignLength(s)..]; t == [] || (!IsDigit(t[0]) && t[0] != '.')
    ensures ScanLiteral(s).None?
  {
    var t := s[SignLength(s)..];
    assert LeadingDigits(t) == [];
  }

  /** Infinities and NaN, whose text holds no literal, cast to 0. */
  lemma FloatIntCastNonFinite()
    ensures FloatIntCast("INF") == 0 && FloatIntCast("-INF") == 0 && FloatIntCast("NAN") == 0
  {
    NoLiteralWithoutDigits("INF");
    assert ("-INF")[SignLength("-INF")..] == "INF";
    NoLiteralWithoutDigits("-INF");
    NoLiteralWithoutDigits("NAN");
  }

  lemma Pow10Of19()
    ensures Pow10(19) == 10_000_000_000_000_000_000
  {
    assert Pow10(2) == 100;
    assert Pow10(3) == 1000;
    assert Pow10(4) == 10000;
    assert Pow10(5) == 100000;
    assert Pow10(6) == 1000000;
    assert Pow10(7) == 10000000;
    assert Pow10(8) == 100000000;
    assert Pow10(9) == 1000000000;
    assert Pow10(10) == 10000000000;
    assert Pow10(11) == 100000000000;
    assert Pow10(12) == 1000000000000;
    assert Pow10(13) == 10000000000000;
    assert Pow10(14) == 100000000000000;
    assert Pow10(15) == 1000000000000000;
    assert Pow10(16) == 10000000000000000;
    assert Pow10(17) == 100000000000000000;
    assert Pow10(18) == 1000000000000000000;
    assert Pow10(19) == 10000000000000000000;
  }

  /** The mantissa of "1.0E+19" is whole part 1 and fraction 0, three characters long. */
  lemma ScanMantissaOfTenToThe19()
    ensures ScanMantissa("1.0E+19") == ("1", "0", 3)
  {
    var s := "1.0E+19";
    assert LeadingDigits(s) == "1" by {
      assert LeadingDigits(s[1..]) == [];
    }
    assert s[1..][1..] == "0E+19";
    assert LeadingDigits("0E+19") == "0" by {
      assert LeadingDigits("E+19") == [];
    }
  }

  /** The exponent part "E+19" is 19, four characters long. */
  lemma ScanExponentOf19()
    ensures ScanExponent("E+19") == (19, 4)
  {
    assert ("E+19")[2..] == "19";
    assert LeadingDigits("19") == "19" by {
      assert LeadingDigits("9") == "9";
    }
    assert DigitsValue("19") == 19 by {
      assert "19"[..1] == "1";
    }
  }

  /** "1.0E+19" is one literal, 1.0 times ten to the 19th. */
  lemma ScanTenToThe19()
    ensures ScanLiteral("1.0E+19") == Some(Literal(false, "1", "0", 19, 7))
  {
    ScanMantissaOfTenToThe19();
    assert SignLength("1.0E+19") == 0;
    assert ("1.0E+19")[3..] == "E+19";
    ScanExponentOf19();
  }

  /** Just above the 64-bit range, wrapping subtracts 2^64 once. */
  lemma WrapAbove(i: int)
    requires PhpIntMax < i <= PhpIntMax + 0x1_0000_0000_0000_0000
    ensures Wrap(i) == i - 0x1_0000_0000_0000_0000
  {
    var n := i - PhpIntMin - 0x1_0000_0000_0000_0000;
    assert 0 <= n < 0x1_0000_0000_0000_0000;
    assert i - PhpIntMin == 0x1_0000_0000_0000_0000 * 1 + n;
  }

  /** The literal 1.0E+19 denotes ten to the 19th. */
  lemma ValueOfTenToThe19()
    ensures LiteralValue(Literal(false, "1", "0", 19, 7)) == 10_000_000_000_000_000_000 as real
  {
    assert DigitsValue("1") == 1 && DigitsValue("0") == 0;
    assert Pow10(1) == 10;
    Pow10Of19();
  }

  /** 1e19, beyond the 64-bit range, wraps to 1e19 - 2^64 rather than saturating. */
  lemma FloatIntCastWraps()
    ensures FloatIntCast("1.0E+19") == 10_000_000_000_000_000_000 - 0x1_0000_0000_0000_0000
  {
    var l := Literal(false, "1", "0", 19, 7);
    ScanTenToThe19();
    ValueOfTenToThe19();
    assert TruncateReal(LiteralValue(l)) == 10_000_000_000_000_000_000;
    WrapAbove(10_000_000_000_000_000_000);
  }

  /** Powers of ten multiply by adding exponents. */
  lemma {:induction false} Pow10Add(a: nat, b: nat)
    ensures Pow10(a + b) == Pow10(a) * Pow10(b)
    decreases a
  {
    if a > 0 {
      Pow10Add(a - 1, b);
    }
  }

  lemma Pow10Of38()
    ensures Pow10(38) == 100000000000000000000000000000000000000
  {
    Pow10Of19();
    Pow10Add(19, 19);
  }

  lemma Pow10Of76()
    ensures Pow10(76) == 10000000000000000000000000000000000000000000000000000000000000000000000000000
  {
    Pow10Of38();
    Pow10Add(38, 38);
  }

  lemma Pow10Of152()
    ensures Pow10(152) == 100000000000000000000000000000000000000000000000000000000000000000000000000000000000000000000000000000000000000000000000000000000000000000000000000000000
  {
    Pow10Of76();
    Pow10Add(76, 76);
  }

  lemma Pow10Of304()
    ensures Pow10(304) == 10000000000000000000000000000000000000000000000000000000000000000000000000000000000000000000000000000000000000000000000000000000000000000000000000000000000000000000000000000000000000000000000000000000000000000000000000000000000000000000000000000000000000000000000000000000000000000000000000000000000000000
  {
    Pow10Of152();
    Pow10Add(152, 152);
  }

  /** Ten to the 309th is beyond the double range. */
  lemma Pow10Of309()
    ensures Pow10(309) >= DoubleOverflow
  {
    Pow10Of304();
    Pow10Add(304, 5);
    assert Pow10(5) == 100000;
  }

  /** "1e309" is one literal, 1 times ten to the 309th. */
  lemma ScanTenToThe309()
    ensures ScanLiteral("1e309") == Some(Literal(false, "1", "", 309, 5))
  {
    ScanMantissaOfOneE309();
    assert SignLength("1e309") == 0;
    assert ("1e309")[1..] == "e309";
    ScanExponentOf309();
  }

  /** The mantissa of "1e309" is the single digit 1. */
  lemma ScanMantissaOfOneE309()
    ensures ScanMantissa("1e309") == ("1", "", 1)
  {
    var s := "1e309";
    assert LeadingDigits(s) == "1" by {
      assert LeadingDigits(s[1..]) == [];
    }
  }

  /** The exponent part "e309" is 309, four characters long. */
  lemma ScanExponentOf309()
    ensures ScanExponent("e309") == (309, 4)
  {
    assert ("e309")[1..] == "309";
    assert LeadingDigits("309") == "309" by {
      assert LeadingDigits("09") == "09" by {
        assert LeadingDigits("9") == "9";
      }
    }
    assert DigitsValue("309") == 309 by {
      assert "309"[..2] == "30" && "30"[..1] == "3";
    }
  }

  /** The literal 1 times ten to the e denotes ten to the e. */
  lemma ValueOfOneE(e: nat, length: nat)
    requires length > 0
    ensures LiteralValue(Literal(false, "1", "", e, length)) == Pow10(e) as real
  {
    assert DigitsValue("1") == 1 && DigitsValue("") == 0 && Pow10(0) == 1;
  }

  /** A string starting with a digit has no leading white space to strip. */
  lemma StripLeftAtDigit(s: string)
    requires s != [] && IsDigit(s[0])
    ensures StripLeft(s, PcreSpaces) == s
  {
  }

  /** "1e309" holds a literal and nothing else, so it is numeric. */
  lemma NumericTenToThe309()
    ensures StripLeft("1e309", PcreSpaces) == "1e309"
    ensures IsNumericString("1e309")
  {
    var s := "1e309";
    StripLeftAtDigit(s);
    ScanTenToThe309();
    assert s[5..] == [];
  }

  /**
   * "1e309" is a numeric string, but its double is infinite, so (int) gives
   * 0 and not the largest integer.
   */
  lemma OverflowingStringCast()
    ensures IsNumericString("1e309") && IntCastString("1e309") == 0
  {
    NumericTenToThe309();
    ScanTenToThe309();
    ValueOfOneE(309, 5);
    Pow10Of309();
    assert Overflows(Literal(false, "1", "", 309, 5));
  }

  /** (int). */
  function IntCast(v: Value): PhpInt {
    match v
    case Null => 0
    case Bool(b) => if b then 1 else 0
    case Int(i) => i
    case Flt(repr) => FloatIntCast(repr)
    case Str(s) => IntCastString(s)
    case Arr(entries) => if entries == [] then 0 else 1
  }

  /** (string). */
  function StringCast(v: Value): string {
    match v
    case Null => ""
    case Bool(b) => if b then "1" else ""
    case Int(i) => IntToString(i)
    case Flt(repr) => repr
    case Str(s) => s
    case Arr(_) => "Array"
  }

  /** The string filter_var receives for a scalar; None for an array, which it rejects outright. */
  function FilterInput(v: Value): Option<string> {
    if v.Arr? then None else Some(StringCast(v))
  }

  /**
   * FILTER_VALIDATE_INT on a string: after trimming, "0", or an optional sign
   * followed by "0" or by digits without a leading zero, within the 64-bit range.
   */
  function FilterIntString(s: string): Option<PhpInt> {
    FilterIntTrimmed(Strip(s, FilterSpaces))
  }

  function FilterIntTrimmed(t: string): Option<PhpInt> {
    if t == [] then None
    else if t[0] == '0' then (if |t| == 1 then Some(0) else None)
    else
      var signLen := if t[0] == '+' || t[0] == '-' then 1 else 0;
      var u := t[signLen..];
      if u == "0" then Some(0)
      else if u != [] && '1' <= u[0] <= '9' && AllDigits(u) then
        var n: int := if signLen == 1 && t[0] == '-' then -(DigitsValue(u) as int) else DigitsValue(u);
        if PhpIntMin <= n <= PhpIntMax then Some(n) else None
      else None
  }

  /** filter_var($v, FILTER_VALIDATE_INT), with None for false. */
  function FilterInt(v: Value): Option<PhpInt> {
    match FilterInput(v)
    case None => None
    case Some(s) => FilterIntString(s)
  }

  /** 2^1075: a decimal literal of magnitude at most 1 / 2^1075 rounds to a zero double. */
  const DoubleUnderflow: int := 404804506614621236704990693437834614099113299528284236713802716054860679135990693783920767402874248990374155728633623822779617474771586953734026799881477019843034848553132722728933815484186432682479535356945490137124014966849385397236206711298319112681620113024717539104666829230461005064372655017292012526615415482186989568

  /** The literal's double is 0: its value is 0 or too small for the smallest double to hold. */
  predicate RoundsToZero(l: Literal)
    requires ValidLiteral(l)
  {
    -(1.0 / DoubleUnderflow as real) <= LiteralValue(l) <= 1.0 / DoubleUnderflow as real
  }

  /** Some digit 1 to 9 occurs in the text. */
  predicate HasNonZeroDigit(t: string) {
    exists k :: 0 <= k < |t| && '1' <= t[k] <= '9'
  }

  /**
   * FILTER_VALIDATE_FLOAT on a string: after trimming, exactly one decimal
   * literal, refused when its double is infinite, or when it is 0 although
   * the text is longer than one character and holds a digit 1 to 9 ("0e5",
   * or an underflow such as "1e-400").
   */
  function FilterFloatString(s: string): (r: Option<real>)
    ensures r.Some? ==> ScanLiteral(Strip(s, FilterSpaces)).Some?
    ensures r.Some? ==> r.value == LiteralValue(ScanLiteral(Strip(s, FilterSpaces)).value)
  {
    var t := Strip(s, FilterSpaces);
    match ScanLiteral(t)
    case Some(l) =>
      if l.length != |t| || Overflows(l) then None
      else if RoundsToZero(l) && |t| > 1 && HasNonZeroDigit(t) then None
      else Some(LiteralValue(l))
    case None => None
  }

  /** A text that begins and ends with a digit has nothing to strip. */
  lemma StripBetweenDigits(t: string, ws: Blanks)
    requires t != [] && IsDigit(t[0]) && IsDigit(t[|t| - 1])
    ensures Strip(t, ws) == t
  {
    StripPadding([], t, [], ws);
    assert [] + t + [] == t;
  }

  /** FILTER_VALIDATE_FLOAT of a text between digits that is one literal l. */
  lemma FilterFloatOfLiteral(t: string, l: Literal)
    requires t != [] && IsDigit(t[0]) && IsDigit(t[|t| - 1])
    requires ScanLiteral(t) == Some(l) && l.length == |t|
    ensures Overflows(l) ==> FilterFloatString(t) == None
    ensures !Overflows(l) && RoundsToZero(l) && |t| > 1 && HasNonZeroDigit(t) ==> FilterFloatString(t) == None
    ensures !Overflows(l) && !(RoundsToZero(l) && |t| > 1 && HasNonZeroDigit(t)) ==> FilterFloatString(t) == Some(LiteralValue(l))
  {
    StripBetweenDigits(t, FilterSpaces);
  }

  /** A literal whose digits are a single 0 denotes 0, whatever its exponent. */
  lemma ValueOfZeroE(e: nat, length: nat)
    requires length > 0
    ensures LiteralValue(Literal(false, "0", "", e, length)) == 0.0
  {
    assert DigitsValue("0") == 0 && DigitsValue("") == 0 && Pow10(0) == 1;
  }

  /** A literal denoting 0 has the zero double. */
  lemma ZeroRoundsToZero(l: Literal)
    requires ValidLiteral(l) && LiteralValue(l) == 0.0
    ensures RoundsToZero(l)
  {
    assert 1.0 / DoubleUnderflow as real > 0.0;
  }

  /** A digit 1 to 9 at index k is a witness for HasNonZeroDigit. */
  lemma NonZeroDigitAt(t: string, k: nat)
    requires k < |t| && '1' <= t[k] <= '9'
    ensures HasNonZeroDigit(t)
  {
  }

  /** "0e5" is one literal, 0 times ten to the 5th. */
  lemma ScanZeroE5()
    ensures ScanLiteral("0e5") == Some(Literal(false, "0", "", 5, 3))
  {
    var t := "0e5";
    assert LeadingDigits(t) == "0" by {
      assert LeadingDigits(t[1..]) == [];
    }
    assert ScanMantissa(t) == ("0", "", 1);
    assert t[1..] == "e5" && ("e5")[1..] == "5";
    assert LeadingDigits("5") == "5";
    assert ScanExponent("e5") == (5, 2);
  }

  /** "0e5" denotes 0 but holds the digit 5, so FILTER_VALIDATE_FLOAT refuses it. */
  lemma FilterFloatZeroExponent()
    ensures FilterFloatString("0e5") == None
  {
    var t := "0e5";
    var l := Literal(false, "0", "", 5, 3);
    ScanZeroE5();
    ValueOfZeroE(5, 3);
    ZeroRoundsToZero(l);
    NonZeroDigitAt(t, 2);
    FilterFloatOfLiteral(t, l);
  }

  /** "1e309" is a literal whose double is infinite, so FILTER_VALIDATE_FLOAT refuses it. */
  lemma FilterFloatOverflow()
    ensures FilterFloatString("1e309") == None
  {
    var l := Literal(false, "1", "", 309, 5);
    ScanTenToThe309();
    ValueOfOneE(309, 5);
    Pow10Of309();
    assert Overflows(l);
    FilterFloatOfLiteral("1e309", l);
  }

  /** "0.0" denotes 0 and holds no digit 1 to 9, so FILTER_VALIDATE_FLOAT accepts it as 0. */
  lemma FilterFloatPlainZero()
    ensures FilterFloatString("0.0") == Some(0.0)
  {
    var t := "0.0";
    var l := Literal(false, "0", "0", 0, 3);
    assert LeadingDigits(t) == "0" by {
      assert LeadingDigits(t[1..]) == [];
    }
    assert t[1..][1..] == "0";
    assert ScanMantissa(t) == ("0", "0", 3);
    assert ScanLiteral(t) == Some(l);
    assert DigitsValue("0") == 0 && Pow10(0) == 1 && Pow10(1) == 10;
    assert LiteralValue(l) == 0.0;
    FilterFloatOfLiteral(t, l);
  }

  /** filter_var($v, FILTER_VALIDATE_FLOAT), with None for false. */
  function FilterFloat(v: Value): Option<real> {
    match FilterInput(v)
    case None => None
    case Some(s) => FilterFloatString(s)
  }

  // ---------------------------------------------------------------------
  // Properties of the conversions
  // ---------------------------------------------------------------------

  lemma FilterSpaceIsPcreSpace(s: string)
    requires AllBlank(s, FilterSpaces)
    ensures AllBlank(s, PcreSpaces)
  {
  }

  lemma {:induction false} LeadingDigitsAppend(u: string, w: string)
    requires AllDigits(u)
    requires w == [] || !IsDigit(w[0])
    ensures LeadingDigits(u + w) == u
  {
    if u == [] {
      assert u + w == w;
    } else {
      assert (u + w)[1..] == u[1..] + w;
      LeadingDigitsAppend(u[1..], w);
      assert [u[0]] + u[1..] == u;
    }
  }

  /** The optional sign in front of a run of digits. */
  datatype Sign = NoSign | Plus | Minus

  function SignText(sg: Sign): string {
    match sg
    case NoSign => ""
    case Plus => "+"
    case Minus => "-"
  }

  function SignedValue(sg: Sign, digits: string): int
    requires AllDigits(digits)
  {
    if sg == Minus then -(DigitsValue(digits) as int) else DigitsValue(digits)
  }

  /** Scanning a signed run of digits followed by whitespace reads exactly the digits. */
  lemma ScanIntegerLiteral(sg: Sign, digits: string, w: string)
    requires |digits| > 0 && AllDigits(digits)
    requires w == [] || IsPcreSpace(w[0])
    ensures ScanLiteral(SignText(sg) + digits + w) ==
            Some(Literal(sg == Minus, digits, "", 0, |SignText(sg)| + |digits|))
  {
    var s := SignText(sg) + digits + w;
    SignedSplit(sg, digits, w);
    MantissaOfDigits(digits, w);
    ScanLiteralOfParts(s, |SignText(sg)|, digits, sg == Minus);
  }

  /** The parts of a signed run of digits followed by w. */
  lemma SignedSplit(sg: Sign, digits: string, w: string)
    requires |digits| > 0 && AllDigits(digits)
    ensures var s := SignText(sg) + digits + w;
      |SignText(sg)| + |digits| <= |s|
      && s[|SignText(sg)|..] == digits + w && s[|SignText(sg)| + |digits|..] == w
      && SignLength(s) == |SignText(sg)|
      && ((|SignText(sg)| == 1 && s[0] == '-') <==> sg == Minus)
  {
    var sign := SignText(sg);
    var s := sign + digits + w;
    ConcatAssoc(sign, digits, w);
    assert sign != [] ==> s[0] == sign[0];
    assert sign == [] ==> s[0] == digits[0];
  }

  /** ScanLiteral put together from its sign, a mantissa without fraction, and no exponent. */
  lemma ScanLiteralOfParts(s: string, signLen: nat, digits: string, negative: bool)
    requires signLen <= |s| && SignLength(s) == signLen && |digits| > 0
    requires negative <==> signLen == 1 && s[0] == '-'
    requires ScanMantissa(s[signLen..]) == (digits, "", |digits|)
    requires signLen + |digits| <= |s|
    requires s[signLen + |digits|..] == [] || IsPcreSpace(s[signLen + |digits|])
    ensures ScanLiteral(s) == Some(Literal(negative, digits, "", 0, signLen + |digits|))
  {
    var rest := s[signLen + |digits|..];
    assert rest != [] ==> rest[0] == s[signLen + |digits|];
    var e := ScanExponent(rest);
    assert e == (0, 0);
    assert ScanLiteral(s) == Some(Literal(signLen == 1 && s[0] == '-', digits, "", e.0, signLen + |digits| + e.1));
  }

  /** Digits followed by neither a digit nor a point form a mantissa without fraction. */
  lemma MantissaOfDigits(digits: string, w: string)
    requires |digits| > 0 && AllDigits(digits)
    requires w == [] || IsPcreSpace(w[0])
    ensures ScanMantissa(digits + w) == (digits, "", |digits|)
  {
    LeadingDigitsAppend(digits, w);
    assert (digits + w)[|digits|..] == w;
  }

  /** A trimmed string FILTER_VALIDATE_INT accepts is an optional sign followed by digits. */
  lemma IntegerShape(t: string) returns (sg: Sign, digits: string)
    requires FilterIntTrimmed(t).Some?
    ensures t == SignText(sg) + digits && |digits| > 0 && AllDigits(digits)
    ensures FilterIntTrimmed(t).value == SignedValue(sg, digits)
  {
    sg := if t[0] == '+' then Plus else if t[0] == '-' then Minus else NoSign;
    digits := t[|SignText(sg)|..];
    assert t == SignText(sg) + digits;
    if digits == "0" {
      DigitsValueZero();
    }
  }

  lemma DigitsValueZero()
    ensures DigitsValue("0") == 0
  {
    assert "0"[..0] == [];
  }

  lemma IntegerLiteralValue(l: Literal)
    requires ValidLiteral(l) && l.fraction == "" && l.exponent == 0
    ensures LiteralValue(l) == (if l.negative then -(DigitsValue(l.whole) as int) else DigitsValue(l.whole)) as real
  {
    assert Pow10(0) == 1;
    assert DigitsValue(l.fraction) == 0;
  }

  lemma TruncateInteger(v: int)
    ensures TruncateReal(v as real) == v
  {
  }

  /** (int) of an integer literal is its value. */
  lemma IntegerLiteralInt(l: Literal, sg: Sign)
    requires ValidLiteral(l) && l.fraction == "" && l.exponent == 0
    requires l.negative <==> sg == Minus
    requires PhpIntMin <= SignedValue(sg, l.whole) <= PhpIntMax
    ensures LiteralInt(l) == SignedValue(sg, l.whole)
  {
    IntegerLiteralValue(l);
    TruncateInteger(SignedValue(sg, l.whole));
  }

  /** A string is numeric when, past its leading whitespace, a literal is followed only by whitespace. */
  lemma NumericOfLiteral(x: string, u: string, l: Literal)
    requires StripLeft(x, PcreSpaces) == u
    requires ScanLiteral(u) == Some(l) && AllBlank(u[l.length..], PcreSpaces)
    ensures IsNumericString(x)
  {
  }

  lemma IntCastOfLiteral(x: string, u: string, l: Literal)
    requires StripLeft(x, PcreSpaces) == u
    requires ScanLiteral(u) == Some(l)
    ensures IntCastString(x) == LiteralInt(l)
  {
  }

  /** A signed run of digits between whitespace is numeric, and (int) reads its value. */
  lemma CastOfSignedDigits(w1: string, t: string, w2: string, sg: Sign, digits: string)
    requires AllBlank(w1, PcreSpaces) && AllBlank(w2, PcreSpaces)
    requires t == SignText(sg) + digits && |digits| > 0 && AllDigits(digits)
    requires PhpIntMin <= SignedValue(sg, digits) <= PhpIntMax
    ensures IsNumericString(w1 + t + w2)
    ensures IntCastString(w1 + t + w2) == SignedValue(sg, digits)
  {
    var x := w1 + t + w2;
    var u := t + w2;
    var l := Literal(sg == Minus, digits, "", 0, |t|);
    SignedSplit(sg, digits, w2);
    SignedStart(sg, digits, w2);
    ConcatAssoc(w1, t, w2);
    StripLeftAppend(w1, u, PcreSpaces);
    ScanIntegerLiteral(sg, digits, w2);
    NumericOfLiteral(x, u, l);
    IntCastOfLiteral(x, u, l);
    IntegerLiteralInt(l, sg);
  }

  /** A signed run of digits does not start with whitespace. */
  lemma SignedStart(sg: Sign, digits: string, w: string)
    requires |digits| > 0 && AllDigits(digits)
    ensures !IsPcreSpace((SignText(sg) + digits + w)[0])
  {
    var s := SignText(sg) + digits + w;
    assert s[0] == if sg == NoSign then digits[0] else SignText(sg)[0];
  }

  /**
   * FILTER_VALIDATE_INT accepts only numeric strings, and the integer it
   * returns is the one the (int) cast reads from the same string.
   */
  lemma FilterIntAgreesWithCast(s: string)
    requires FilterIntString(s).Some?
    ensures IsNumericString(s)
    ensures IntCastString(s) == FilterIntString(s).value
  {
    var t := Strip(s, FilterSpaces);
    var w1, w2 := StripParts(s, FilterSpaces);
    FilterSpaceIsPcreSpace(w1);
    FilterSpaceIsPcreSpace(w2);
    var sg, digits := IntegerShape(t);
    CastOfSignedDigits(w1, t, w2, sg, digits);
  }

  /** A run of digits without a leading zero, optionally after a minus sign, passes FILTER_VALIDATE_INT. */
  lemma FilterIntOfDigits(sg: Sign, digits: string)
    requires sg != Plus
    requires |digits| > 0 && AllDigits(digits) && digits[0] != '0'
    requires PhpIntMin <= SignedValue(sg, digits) <= PhpIntMax
    ensures FilterIntTrimmed(SignText(sg) + digits) == Some(SignedValue(sg, digits))
  {
    var t := SignText(sg) + digits;
    if sg == Minus {
      assert t[1..] == digits;
      assert digits != "0";
    } else {
      assert t == digits;
      assert t[0..] == digits;
    }
  }

  /** Every integer, rendered in decimal, passes FILTER_VALIDATE_INT unchanged. */
  lemma FilterIntOfIntString(i: PhpInt)
    ensures FilterIntString(IntToString(i)) == Some(i)
  {
    if i == 0 {
      FilterIntOfZero();
    } else {
      var sg := if i < 0 then Minus else NoSign;
      var u := NatToString(if i < 0 then -(i as int) else i);
      FilterIntOfRendering(IntToString(i), sg, u, i);
    }
  }

  lemma FilterIntOfZero()
    ensures FilterIntString("0") == Some(0)
  {
    StripKeeps("0", FilterSpaces);
  }

  lemma FilterIntOfRendering(s: string, sg: Sign, u: string, i: PhpInt)
    requires sg != Plus
    requires s == SignText(sg) + u
    requires |u| > 0 && AllDigits(u) && u[0] != '0'
    requires SignedValue(sg, u) == i
    ensures FilterIntString(s) == Some(i)
  {
    assert IsDigit(u[|u| - 1]) && s[|s| - 1] == u[|u| - 1];
    assert s[0] == if sg == Minus then '-' else u[0];
    StripKeeps(s, FilterSpaces);
    FilterIntOfDigits(sg, u);
  }

  /** filter_var() returns every integer as it is. */
  lemma FilterIntOfInt(i: PhpInt)
    ensures FilterInt(Int(i)) == Some(i)
  {
    FilterIntOfIntString(i);
  }

  /** Every integer, rendered in decimal, is numeric and casts back to itself. */
  lemma IntCastOfIntString(i: PhpInt)
    ensures IsNumericString(IntToString(i))
    ensures IntCastString(IntToString(i)) == i
  {
    FilterIntOfIntString(i);
    FilterIntAgreesWithCast(IntToString(i));
  }
}
