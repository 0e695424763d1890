/** The colour a request names (`ColorNameOrHexRgb`): a `#` followed by
    hexadecimal digits, or the name of a known colour looked up ignoring
    case. The named-colour table and the conversion to CIE XY are library
    data and a foreign call; both are parameters here. */
module Colors {
  import opened Common
  import Text

  datatype Rgb = Rgb(r: nat, g: nat, b: nat)

  /** The value of a hexadecimal digit, either case. */
  function HexDigit(c: char): (r: Option<nat>)
    ensures r.Some? ==> r.value < 16
  {
    if '0' <= c <= '9' then Some(c as int - '0' as int)
    else if 'a' <= c <= 'f' then Some(c as int - 'a' as int + 10)
    else if 'A' <= c <= 'F' then Some(c as int - 'A' as int + 10)
    else None
  }

  /** The lower-case digit for a value below 16. */
  function DigitChar(n: nat): (c: char)
    requires n < 16
    ensures HexDigit(c) == Some(n)
  {
    if n < 10 then ('0' as int + n) as char else ('a' as int + n - 10) as char
  }

  /** The white space `NumberStyles.HexNumber` allows around the digits. */
  predicate IsWhite(c: char)
  {
    c == ' ' || '\t' <= c <= '\r'
  }

  /** The value of a string of hexadecimal digits, `None` when a
      character is not a digit. */
  function HexValue(s: string): (r: Option<nat>)
    ensures s == [] ==> r == Some(0)
  {
    if s == [] then Some(0)
    else match (HexValue(s[..|s| - 1]), HexDigit(s[|s| - 1]))
      case (Some(high), Some(low)) => Some(high * 16 + low)
      case _ => None
  }

  /** `s` without leading white space. */
  function TrimLeading(s: string): (r: string)
    ensures |r| <= |s|
  {
    if s != [] && IsWhite(s[0]) then TrimLeading(s[1..]) else s
  }

  /** `s` without trailing white space. */
  function TrimTrailing(s: string): (r: string)
    ensures |r| <= |s|
  {
    if s != [] && IsWhite(s[|s| - 1]) then TrimTrailing(s[..|s| - 1]) else s
  }

  /** `int.Parse(s, NumberStyles.HexNumber)` for the short fields read
      here: white space around the digits is allowed; no digits, or any
      other character, raises a format exception. */
  function ParseHex(s: string): (r: Outcome<nat>)
    ensures r.Throws? ==> r.exception == "FormatException"
  {
    var t := TrimTrailing(TrimLeading(s));
    if t == [] then Throws("FormatException")
    else match HexValue(t)
      case None => Throws("FormatException")
      case Some(n) => Done(n)
  }

  /** `s.TrimStart('#')`: every leading `#` removed. */
  function TrimHashes(s: string): (r: string)
    ensures |r| <= |s| && (r != [] ==> r[0] != '#')
  {
    if s != [] && s[0] == '#' then TrimHashes(s[1..]) else s
  }

  /** The three channels read from three fields, each scaled, stopping at
      the first field that does not parse. */
  function Channels(red: string, green: string, blue: string, scale: nat): (r: Outcome<Rgb>)
    ensures r.Throws? ==> r.exception == "FormatException"
  {
    var r, g, b := ParseHex(red), ParseHex(green), ParseHex(blue);
    if r.Throws? then Throws(r.exception)
    else if g.Throws? then Throws(g.exception)
    else if b.Throws? then Throws(b.exception)
    else Done(Rgb(r.value * scale, g.value * scale, b.value * scale))
  }

  /** The hexadecimal form as the client reads it, after the leading
      hashes are trimmed: three or four digits give one digit per channel
      (the first of four being alpha), six or eight give two digits per
      channel (the first pair of eight being alpha), any other length is
      black. Each single digit is taken as the channel's value. */
  function ParseHexRgbAsWritten(text: string): (r: Outcome<Rgb>)
    ensures r.Throws? ==> r.exception == "FormatException"
    ensures |TrimHashes(text)| !in {3, 4, 6, 8} ==> r == Done(Rgb(0, 0, 0))
  {
    var s := TrimHashes(text);
    if |s| == 3 then Channels(s[0..1], s[1..2], s[2..3], 1)
    else if |s| == 4 then Channels(s[1..2], s[2..3], s[3..4], 1)
    else if |s| == 6 then Channels(s[0..2], s[2..4], s[4..6], 1)
    else if |s| == 8 then Channels(s[2..4], s[4..6], s[6..8], 1)
    else Done(Rgb(0, 0, 0))
  }

  /** The hexadecimal form with a single digit standing for the digit
      doubled, as in `#fff` for `#ffffff`: its value is seventeen times
      the digit. Otherwise as `ParseHexRgbAsWritten`. */
  function ParseHexRgb(text: string): (r: Outcome<Rgb>)
    ensures r.Throws? ==> r.exception == "FormatException"
    ensures |TrimHashes(text)| !in {3, 4, 6, 8} ==> r == Done(Rgb(0, 0, 0))
  {
    var s := TrimHashes(text);
    if |s| == 3 then Channels(s[0..1], s[1..2], s[2..3], 17)
    else if |s| == 4 then Channels(s[1..2], s[2..3], s[3..4], 17)
    else if |s| == 6 then Channels(s[0..2], s[2..4], s[4..6], 1)
    else if |s| == 8 then Channels(s[2..4], s[4..6], s[6..8], 1)
    else Done(Rgb(0, 0, 0))
  }

  /** Two lower-case digits for a value below 256. */
  function HexPair(n: nat): (s: string)
    requires n < 256
  {
    [DigitChar(n / 16), DigitChar(n % 16)]
  }

  lemma HexValueOne(c: char)
    ensures HexValue([c]) == HexDigit(c)
  {
    assert [c][..0] == [];
  }

  lemma HexValueTwo(c: char, d: char)
    requires HexDigit(c).Some? && HexDigit(d).Some?
    ensures HexValue([c, d]) == Some(HexDigit(c).value * 16 + HexDigit(d).value)
  {
    assert [c, d][..1] == [c];
    HexValueOne(c);
  }

  /** A field of digits with no white space at either end parses as its
      digits' value. */
  lemma ParseDigits(s: string)
    requires s != [] && !IsWhite(s[0]) && !IsWhite(s[|s| - 1])
    ensures ParseHex(s) == if HexValue(s).Some? then Done(HexValue(s).value) else Throws("FormatException")
  {
  }

  lemma ParseHexPair(n: nat)
    requires n < 256
    ensures ParseHex(HexPair(n)) == Done(n)
  {
    HexValueTwo(DigitChar(n / 16), DigitChar(n % 16));
    ParseDigits(HexPair(n));
  }

  lemma ParseHexDigit(n: nat)
    requires n < 16
    ensures ParseHex([DigitChar(n)]) == Done(n)
  {
    HexValueOne(DigitChar(n));
    ParseDigits([DigitChar(n)]);
  }

  lemma TrimOneHash(s: string)
    requires s != [] && s[0] != '#'
    ensures TrimHashes("#" + s) == s
  {
    assert ("#" + s)[1..] == s;
  }

  /** Six digits read back as the three channels they encode; eight
      digits read the same channels after an alpha pair. */
  lemma LongFormRoundTrip(r: nat, g: nat, b: nat, alpha: nat)
    requires r < 256 && g < 256 && b < 256 && alpha < 256
    ensures ParseHexRgb("#" + HexPair(r) + HexPair(g) + HexPair(b)) == Done(Rgb(r, g, b))
    ensures ParseHexRgb("#" + HexPair(alpha) + HexPair(r) + HexPair(g) + HexPair(b)) == Done(Rgb(r, g, b))
  {
    ParseHexPair(r);
    ParseHexPair(g);
    ParseHexPair(b);
    var six := HexPair(r) + HexPair(g) + HexPair(b);
    TrimOneHash(six);
    assert "#" + HexPair(r) + HexPair(g) + HexPair(b) == "#" + six;
    assert six[0..2] == HexPair(r) && six[2..4] == HexPair(g) && six[4..6] == HexPair(b);
    var eight := HexPair(alpha) + six;
    TrimOneHash(eight);
    assert "#" + HexPair(alpha) + HexPair(r) + HexPair(g) + HexPair(b) == "#" + eight;
    assert eight[2..4] == HexPair(r) && eight[4..6] == HexPair(g) && eight[6..8] == HexPair(b);
  }

  /** As written, a three-digit form gives each channel the bare digit,
      so `#fff` reads as the near-black (15, 15, 15) rather than the white
      that `#ffffff` reads as. */
  lemma ShortFormAsWrittenIsDark()
    ensures ParseHexRgbAsWritten("#fff") == Done(Rgb(15, 15, 15))
    ensures ParseHexRgbAsWritten("#ffffff") == Done(Rgb(255, 255, 255))
  {
    ParseHexDigit(15);
    TrimOneHash("fff");
    assert "fff"[0..1] == [DigitChar(15)] && "fff"[1..2] == [DigitChar(15)] && "fff"[2..3] == [DigitChar(15)];
    ParseHexPair(255);
    TrimOneHash("ffffff");
    assert "ffffff"[0..2] == HexPair(255) && "ffffff"[2..4] == HexPair(255) && "ffffff"[4..6] == HexPair(255);
  }

  /** A single character read as a digit doubled gives the value its
      two-character form would. */
  lemma DoubledDigit(c: char)
    ensures match ParseHex([c])
      case Done(n) => ParseHex([c, c]) == Done(17 * n)
      case Throws(e) => ParseHex([c, c]) == Throws(e)
  {
    if IsWhite(c) {
      assert TrimLeading([c]) == [] by {
        assert [c][1..] == [];
      }
      assert TrimLeading([c, c]) == [] by {
        assert [c, c][1..] == [c];
        assert [c][1..] == [];
      }
    } else {
      HexValueOne(c);
      ParseDigits([c]);
      ParseDigits([c, c]);
      if HexDigit(c).Some? {
        HexValueTwo(c, c);
      } else {
        assert [c, c][..1] == [c];
      }
    }
  }

  /** With the doubling, a three-digit form reads as the six-digit form
      that repeats each of its digits, whatever the digits are. */
  lemma ShortFormDoubles(x: char, y: char, z: char)
    requires x != '#'
    ensures ParseHexRgb(['#', x, y, z]) == ParseHexRgb(['#', x, x, y, y, z, z])
  {
    ShortFields(x, y, z);
    DoubledFields(x, y, z);
    DoubledChannels(x, y, z);
  }

  /** The fields a three-digit form is read from. */
  lemma ShortFields(x: char, y: char, z: char)
    requires x != '#'
    ensures ParseHexRgb(['#', x, y, z]) == Channels([x], [y], [z], 17)
  {
    var three := [x, y, z];
    TrimOneHash(three);
    assert ['#', x, y, z] == "#" + three;
    assert three[0..1] == [x] && three[1..2] == [y] && three[2..3] == [z];
  }

  /** The fields of the six-digit form that repeats each digit. */
  lemma DoubledFields(x: char, y: char, z: char)
    requires x != '#'
    ensures ParseHexRgb(['#', x, x, y, y, z, z]) == Channels([x, x], [y, y], [z, z], 1)
  {
    var six := [x, x, y, y, z, z];
    TrimOneHash(six);
    assert ['#', x, x, y, y, z, z] == "#" + six;
    assert six[0..2] == [x, x] && six[2..4] == [y, y] && six[4..6] == [z, z];
  }

  /** Each single-digit field scaled by seventeen reads as its doubled
      field. */
  lemma DoubledChannels(x: char, y: char, z: char)
    ensures Channels([x], [y], [z], 17) == Channels([x, x], [y, y], [z, z], 1)
  {
    DoubledDigit(x);
    DoubledDigit(y);
    DoubledDigit(z);
  }

  /** The corrected reading differs from the reading as written only on
      the three- and four-digit forms, where it scales each channel by
      seventeen; the two fail on the same texts. */
  lemma CorrectedScalesShortForms(text: string)
    ensures ParseHexRgb(text).Throws? <==> ParseHexRgbAsWritten(text).Throws?
    ensures |TrimHashes(text)| !in {3, 4} ==> ParseHexRgb(text) == ParseHexRgbAsWritten(text)
    ensures |TrimHashes(text)| in {3, 4} && ParseHexRgb(text).Done? ==>
      var w := ParseHexRgbAsWritten(text).value;
      ParseHexRgb(text).value == Rgb(w.r * 17, w.g * 17, w.b * 17)
  {
  }

  /** The colour a request names: a leading `#` selects the hexadecimal
      form; otherwise the name is looked up ignoring case in `table`
      (keyed by lower-cased name), and an unknown name gives `None`. */
  function Resolve(text: string, table: map<string, Rgb>): (r: Outcome<Option<Rgb>>)
    requires text != []
    ensures text[0] != '#' ==> r == Done(if Text.Lower(text) in table then Some(table[Text.Lower(text)]) else None)
    ensures text[0] == '#' ==> r.Throws? || r.value.Some?
  {
    if text[0] == '#' then
      match ParseHexRgb(text)
      case Throws(e) => Throws(e)
      case Done(c) => Done(Some(c))
    else if Text.Lower(text) in table then Done(Some(table[Text.Lower(text)]))
    else Done(None)
  }
}
