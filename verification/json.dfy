/** The JSON values exchanged with the bridge and the .NET conversions the
    client applies to a decoded value before storing it (`ConvertHueValue`,
    `Enum.Parse`, the casts in the XY setter). */
module Json {
  import opened Common
  import Text

  /** A decoded JSON value: integers arrive as 64-bit integers, other
      numbers as doubles (modelled as exact reals). */
  datatype Json =
    | JNull
    | JBool(b: bool)
    | JInt(n: int)
    | JReal(r: real)
    | JText(s: string)
    | JArray(items: seq<Json>)

  /** Round to the nearest integer, halves to the even neighbour
      (`Convert.ToUInt16(double)`). */
  function RoundToEven(r: real): (n: int)
    ensures r - 0.5 <= n as real <= r + 0.5
    ensures (n as real - r == 0.5 || r - n as real == 0.5) ==> n % 2 == 0
  {
    var f := r.Floor;
    var dif := r - f as real;
    if dif > 0.5 || (dif == 0.5 && f % 2 != 0) then f + 1 else f
  }

  /** The value of a decimal digit string, or `None` when `s` is empty or
      holds anything else (signs and white space are not accepted). */
  function ParseDecimal(s: string): (r: Option<nat>)
    ensures r.Some? ==> s != []
  {
    if s == [] || !('0' <= s[|s| - 1] <= '9') then None
    else if |s| == 1 then Some(s[0] as int - '0' as int)
    else match ParseDecimal(s[..|s| - 1])
      case None => None
      case Some(high) => Some(high * 10 + (s[|s| - 1] as int - '0' as int))
  }

  /** The decimal digits of `n`, without leading zeros. */
  function DecimalText(n: nat): (s: string)
    ensures s != [] && forall i | 0 <= i < |s| :: '0' <= s[i] <= '9'
  {
    if n < 10 then [('0' as int + n) as char]
    else DecimalText(n / 10) + [('0' as int + n % 10) as char]
  }

  /** Parsing the digits of a number gives the number back. */
  lemma {:induction false} ParseDecimalText(n: nat)
    ensures ParseDecimal(DecimalText(n)) == Some(n)
  {
    if n >= 10 {
      var s := DecimalText(n);
      assert s[..|s| - 1] == DecimalText(n / 10);
      ParseDecimalText(n / 10);
    }
  }

  /** `Convert.ChangeType(v, typeof(bool))`. */
  function ToBool(v: Json): (r: Outcome<bool>)
    ensures v.JBool? ==> r == Done(v.b)
    ensures v.JNull? || v.JArray? ==> r.Throws?
    ensures v.JText? && r.Throws? ==> r.exception == "FormatException"
  {
    match v
    case JBool(b) => Done(b)
    case JInt(n) => Done(n != 0)
    case JReal(x) => Done(x != 0.0)
    case JText(s) => ParseBoolean(s)
    case JNull => Throws("InvalidCastException")
    case JArray(_) => Throws("InvalidCastException")
  }

  /** What `Boolean.Parse` trims: white space and null characters. */
  predicate WhiteOrNull(c: char)
  {
    Text.IsWhiteSpace(c) || c == '\0'
  }

  /** `Boolean.Parse`: "true" or "false" ignoring case, once white space
      and null characters are trimmed from both ends. */
  function ParseBoolean(s: string): (r: Outcome<bool>)
    ensures r.Throws? ==> r.exception == "FormatException"
  {
    var t := Text.TrimEnd(Text.TrimStart(s, WhiteOrNull), WhiteOrNull);
    if Text.EqualsIgnoreCase(t, "true") then Done(true)
    else if Text.EqualsIgnoreCase(t, "false") then Done(false)
    else Throws("FormatException")
  }

  /** A boolean's text, in any letter case and with any padding of white
      space and null characters, converts to that boolean. */
  lemma BooleanTextPadded(b: bool, word: string, front: string, back: string)
    requires Text.EqualsIgnoreCase(word, if b then "true" else "false")
    requires forall i | 0 <= i < |front| :: WhiteOrNull(front[i])
    requires forall i | 0 <= i < |back| :: WhiteOrNull(back[i])
    ensures ToBool(JText(front + word + back)) == Done(b)
  {
    var lower := Text.Lower(word);
    assert lower[0] == Text.LowerChar(word[0]) && lower[|word| - 1] == Text.LowerChar(word[|word| - 1]);
    Text.TrimBothPad(front, word, back, WhiteOrNull);
  }

  /** `Convert.ChangeType(v, typeof(ushort))`: a checked conversion that
      throws on a value outside 0..65535. */
  function ToUShort(v: Json): (r: Outcome<UShort>)
    ensures v.JInt? && 0 <= v.n <= 0xFFFF ==> r == Done(v.n)
    ensures v.JInt? && !(0 <= v.n <= 0xFFFF) ==> r == Throws("OverflowException")
    ensures v.JText? && r.Throws? ==> r.exception == "FormatException" || r.exception == "OverflowException"
  {
    match v
    case JBool(b) => Done(if b then 1 else 0)
    case JInt(n) => if 0 <= n <= 0xFFFF then Done(n) else Throws("OverflowException")
    case JReal(x) => if -0.5 <= x < 65535.5 then Done(RoundToEven(x)) else Throws("OverflowException")
    case JText(s) => ParseUInt16(s)
    case JNull => Throws("InvalidCastException")
    case JArray(_) => Throws("InvalidCastException")
  }

  /** The white space a number's text may carry around it
      (`NumberStyles.AllowLeadingWhite`, `AllowTrailingWhite`). */
  predicate NumberWhite(c: char)
  {
    '\U{9}' <= c <= '\U{D}' || c == ' '
  }

  predicate IsNull(c: char)
  {
    c == '\0'
  }

  /** The text of a number without its padding: white space in front,
      then white space and, after it, null characters at the end. */
  function NumberCore(s: string): string
  {
    Text.TrimStart(Text.TrimEnd(Text.TrimEnd(s, IsNull), NumberWhite), NumberWhite)
  }

  /** `UInt16.Parse` with `NumberStyles.Integer`: optional padding, an
      optional sign and decimal digits. Text that does not have that form
      throws `FormatException`; a value above 65535, or a negative value
      other than zero, throws `OverflowException`. */
  function ParseUInt16(s: string): (r: Outcome<UShort>)
    ensures r.Throws? ==> r.exception == "FormatException" || r.exception == "OverflowException"
  {
    ParseSigned(NumberCore(s))
  }

  /** The unpadded text of a number: an optional sign, then digits. */
  function ParseSigned(t: string): (r: Outcome<UShort>)
    ensures r.Throws? ==> r.exception == "FormatException" || r.exception == "OverflowException"
  {
    var negative := t != [] && t[0] == '-';
    var digits := if t != [] && (t[0] == '+' || t[0] == '-') then t[1..] else t;
    match ParseDecimal(digits)
    case None => Throws("FormatException")
    case Some(n) =>
      if negative && n != 0 then Throws("OverflowException")
      else if n <= 0xFFFF then Done(n)
      else Throws("OverflowException")
  }

  /** Padding around a number's text is trimmed off. */
  lemma NumberCorePad(front: string, core: string, back: string, nulls: string)
    requires core != [] && !NumberWhite(core[0]) && !NumberWhite(core[|core| - 1]) && !IsNull(core[|core| - 1])
    requires forall i | 0 <= i < |front| :: NumberWhite(front[i])
    requires forall i | 0 <= i < |back| :: NumberWhite(back[i])
    requires forall i | 0 <= i < |nulls| :: IsNull(nulls[i])
    ensures NumberCore(front + core + back + nulls) == core
  {
    var s := front + core + back + nulls;
    assert s == (front + core + back) + nulls;
    assert (front + core + back)[|front + core + back| - 1] == (if back == [] then core[|core| - 1] else back[|back| - 1]);
    Text.TrimEndPad(front + core + back, nulls, IsNull);
    assert front + core + back == (front + core) + back;
    Text.TrimEndPad(front + core, back, NumberWhite);
    Text.TrimStartPad(front, core, NumberWhite);
  }

  /** A number's digits with an optional sign parse to the number when it
      fits in 16 bits; a minus sign is accepted only on zero. */
  lemma ParseSignedText(n: nat, sign: string)
    requires sign in {"", "+", "-"}
    ensures var r := ParseSigned(sign + DecimalText(n));
      if sign == "-" && n != 0 then r == Throws("OverflowException")
      else if n <= 0xFFFF then r == Done(n)
      else r == Throws("OverflowException")
  {
    var digits := DecimalText(n);
    ParseDecimalText(n);
    if sign != "" {
      assert (sign + digits)[1..] == digits;
    } else {
      assert sign + digits == digits;
    }
  }

  /** The digits of a number, signed and padded as `UInt16.Parse`
      allows, convert to that number when it fits in 16 bits; a minus sign
      is accepted only on zero. */
  lemma UShortTextPadded(n: nat, sign: string, front: string, back: string, nulls: string)
    requires sign in {"", "+", "-"}
    requires forall i | 0 <= i < |front| :: NumberWhite(front[i])
    requires forall i | 0 <= i < |back| :: NumberWhite(back[i])
    requires forall i | 0 <= i < |nulls| :: IsNull(nulls[i])
    ensures var r := ToUShort(JText(front + (sign + DecimalText(n)) + back + nulls));
      if sign == "-" && n != 0 then r == Throws("OverflowException")
      else if n <= 0xFFFF then r == Done(n)
      else r == Throws("OverflowException")
  {
    var core := sign + DecimalText(n);
    SignedDigitsUnpadded(n, sign);
    PaddedNumber(front, core, back, nulls);
    ParseSignedText(n, sign);
  }

  /** A signed number's text neither starts nor ends with padding. */
  lemma SignedDigitsUnpadded(n: nat, sign: string)
    requires sign in {"", "+", "-"}
    ensures var core := sign + DecimalText(n);
      core != [] && !NumberWhite(core[0]) && !NumberWhite(core[|core| - 1]) && !IsNull(core[|core| - 1])
  {
    var digits := DecimalText(n);
    var core := sign + digits;
    assert core[|core| - 1] == digits[|digits| - 1];
    assert core[0] == if sign == "" then digits[0] else sign[0];
  }

  /** Padding around the unpadded text of a number does not change what
      `UInt16.Parse` makes of it. */
  lemma PaddedNumber(front: string, core: string, back: string, nulls: string)
    requires core != [] && !NumberWhite(core[0]) && !NumberWhite(core[|core| - 1]) && !IsNull(core[|core| - 1])
    requires forall i | 0 <= i < |front| :: NumberWhite(front[i])
    requires forall i | 0 <= i < |back| :: NumberWhite(back[i])
    requires forall i | 0 <= i < |nulls| :: IsNull(nulls[i])
    ensures ToUShort(JText(front + core + back + nulls)) == ParseSigned(core)
  {
    NumberCorePad(front, core, back, nulls);
  }

  /** `Convert.ChangeType(v, typeof(string))`: text is kept and null stays
      null. */
  function ToText(v: Json): (r: Outcome<Option<string>>)
    ensures v.JText? ==> r == Done(Some(v.s))
    ensures v.JNull? ==> r == Done(None)
  {
    match v
    case JText(s) => Done(Some(s))
    case JNull => Done(None)
    case JBool(b) => Done(Some(if b then "True" else "False"))
    case JInt(n) => Done(Some(if n < 0 then "-" + DecimalText(-n) else DecimalText(n)))
    case JReal(_) => Throws("FormatException")
    case JArray(_) => Throws("InvalidCastException")
  }

  /** One coordinate of the XY array: `Convert.ChangeType(token.Value,
      typeof(float))`. */
  function ToCoordinate(v: Json): (r: Outcome<real>)
    ensures v.JReal? ==> r == Done(v.r)
    ensures v.JInt? ==> r == Done(v.n as real)
  {
    match v
    case JInt(n) => Done(n as real)
    case JReal(x) => Done(x)
    case JBool(b) => Done(if b then 1.0 else 0.0)
    case JText(_) => Throws("FormatException")
    case JNull => Throws("InvalidCastException")
    case JArray(_) => Throws("InvalidCastException")
  }

  /** The XY setter's reading of its value: a JSON array whose first two
      items are the coordinates. */
  function ToPair(v: Json): (r: Outcome<(real, real)>)
    ensures r.Done? ==> v.JArray? && |v.items| >= 2
    ensures v.JNull? ==> r == Throws("ArgumentNullException")
    ensures v.JArray? && |v.items| >= 2 && v.items[0].JReal? && v.items[1].JReal? ==>
      r == Done((v.items[0].r, v.items[1].r))
  {
    match v
    case JNull => Throws("ArgumentNullException")
    case JArray(items) =>
      if |items| < 2 then Throws("IndexOutOfRangeException")
      else
        (match ToCoordinate(items[0])
         case Throws(e) => Throws(e)
         case Done(x) =>
           (match ToCoordinate(items[1])
            case Throws(e) => Throws(e)
            case Done(y) => Done((x, y))))
    case _ => Throws("InvalidCastException")
  }

  /** `Enum.Parse(type, (string)v, true)` over the enum's member names:
      the member whose name equals the text ignoring case. */
  function ParseEnum<E>(v: Json, names: seq<(string, E)>): (r: Outcome<E>)
    ensures v.JText? && (exists i | 0 <= i < |names| :: Text.EqualsIgnoreCase(names[i].0, v.s)) ==> r.Done?
    ensures r.Done? ==> v.JText? && exists i | 0 <= i < |names| :: Text.EqualsIgnoreCase(names[i].0, v.s) && r.value == names[i].1
  {
    match v
    case JNull => Throws("ArgumentNullException")
    case JText(s) => FindName(s, names)
    case _ => Throws("InvalidCastException")
  }

  /** The first member of `names` whose name equals `s` ignoring case. */
  function FindName<E>(s: string, names: seq<(string, E)>): (r: Outcome<E>)
    ensures r.Done? <==> exists i | 0 <= i < |names| :: Text.EqualsIgnoreCase(names[i].0, s)
    ensures r.Done? ==> exists i | 0 <= i < |names| :: Text.EqualsIgnoreCase(names[i].0, s) && r.value == names[i].1
    ensures r.Throws? ==> r.exception == "ArgumentException"
  {
    if names == [] then Throws("ArgumentException")
    else if Text.EqualsIgnoreCase(names[0].0, s) then Done(names[0].1)
    else
      var rest := FindName(s, names[1..]);
      assert forall i | 1 <= i < |names| :: names[i] == names[1..][i - 1];
      rest
  }
}
