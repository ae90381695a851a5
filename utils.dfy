/**
 * Regional helpers: phone validation, formatting and network detection for
 * mobile money, the contrasting text colour and CSS variables of a theme,
 * class-name joining, and the country of a currency.
 */
module Utils {
  import opened Wrappers
  import opened JsBuiltins

  // ---------------------------------------------------------------------------
  // validatePhone
  // ---------------------------------------------------------------------------

  /** One position of a phone pattern: `[0-9]` or a bracketed set of digits. */
  datatype CharClass = AnyDigit | OneOf(chars: set<char>)

  predicate InClass(c: char, k: CharClass) {
    match k
    case AnyDigit => IsDigit(c)
    case OneOf(chars) => c in chars
  }

  /** A regular expression of the shape `^(?:CC|0)?C1…Cn$`: an optional
      country code or trunk `0`, then one character from each class. */
  datatype PhonePattern = PhonePattern(countryCode: string, classes: seq<CharClass>)

  const EightDigits: seq<CharClass> := [AnyDigit, AnyDigit, AnyDigit, AnyDigit, AnyDigit, AnyDigit, AnyDigit, AnyDigit]

  /** `/^(?:233|0)?[235][0-9]{8}$/` */
  const GhanaPattern: PhonePattern := PhonePattern("233", [OneOf({'2', '3', '5'})] + EightDigits)
  /** `/^(?:234|0)?[789][01][0-9]{8}$/` */
  const NigeriaPattern: PhonePattern := PhonePattern("234", [OneOf({'7', '8', '9'}), OneOf({'0', '1'})] + EightDigits)
  /** `/^(?:254|0)?[17][0-9]{8}$/` */
  const KenyaPattern: PhonePattern := PhonePattern("254", [OneOf({'1', '7'})] + EightDigits)

  const PhonePatterns: map<string, PhonePattern> :=
    map["GH" := GhanaPattern, "NG" := NigeriaPattern, "KE" := KenyaPattern]

  /** The table has a pattern for Ghana, Nigeria and Kenya only, each with
      its own country code. */
  lemma PhonePatternsCountries()
    ensures PhonePatterns.Keys == {"GH", "NG", "KE"}
    ensures PhonePatterns["GH"].countryCode == "233" && |PhonePatterns["GH"].classes| == 9
    ensures PhonePatterns["NG"].countryCode == "234" && |PhonePatterns["NG"].classes| == 10
    ensures PhonePatterns["KE"].countryCode == "254" && |PhonePatterns["KE"].classes| == 9
  {
  }

  /** `s` is, character by character, in the classes. */
  predicate MatchesClasses(classes: seq<CharClass>, s: string) {
    |s| == |classes| && forall i :: 0 <= i < |s| ==> InClass(s[i], classes[i])
  }

  /** `s` is `prefix` followed by a match of the classes. */
  predicate MatchesAfter(p: PhonePattern, s: string, prefix: string) {
    StartsWith(s, prefix) && MatchesClasses(p.classes, s[|prefix|..])
  }

  /** `pattern.test(s)`: one of the three ways through `(?:CC|0)?` leads to
      a match of the whole string. */
  predicate Test(p: PhonePattern, s: string): (b: bool)
    ensures b ==> |s| in {|p.classes|, |p.classes| + 1, |p.classes| + |p.countryCode|}
  {
    MatchesAfter(p, s, p.countryCode) || MatchesAfter(p, s, "0") || MatchesAfter(p, s, "")
  }

  /** validatePhone: the digits of the phone number against the pattern of
      the upper-cased country; a country without a pattern only needs ten
      digits or more. */
  function ValidatePhone(phone: string, country: string): (valid: bool)
    ensures ToUpperCase(country) !in PhonePatterns ==> (valid <==> |DigitsOnly(phone)| >= 10)
    ensures ToUpperCase(country) in PhonePatterns ==> (valid <==> Test(PhonePatterns[ToUpperCase(country)], DigitsOnly(phone)))
  {
    var digits := DigitsOnly(phone);
    var key := ToUpperCase(country);
    if key !in PhonePatterns then |digits| >= 10
    else Test(PhonePatterns[key], digits)
  }

  /** Nine digits, the first of them 2, 3 or 5: the part of a Ghanaian
      number after its optional prefix. */
  lemma GhanaClasses(x: string)
    requires forall i :: 0 <= i < |x| ==> IsDigit(x[i])
    ensures MatchesClasses(GhanaPattern.classes, x) <==> |x| == 9 && x[0] in {'2', '3', '5'}
  {
    var classes := GhanaPattern.classes;
    assert |classes| == 9 && classes[0] == OneOf({'2', '3', '5'});
    assert forall i :: 1 <= i < 9 ==> classes[i] == AnyDigit;
  }

  lemma GhanaTest(d: string)
    requires forall i :: 0 <= i < |d| ==> IsDigit(d[i])
    ensures Test(GhanaPattern, d) <==>
              || (|d| == 12 && d[..3] == "233" && d[3] in {'2', '3', '5'})
              || (|d| == 10 && d[0] == '0' && d[1] in {'2', '3', '5'})
              || (|d| == 9 && d[0] in {'2', '3', '5'})
  {
    GhanaClasses(d);
    assert d[0..] == d;
    if |d| >= 1 {
      GhanaClasses(d[1..]);
    }
    if |d| >= 3 {
      GhanaClasses(d[3..]);
      assert StartsWith(d, "233") <==> d[..3] == "233";
    }
  }

  /** A Ghanaian number is valid exactly when its digits are `233`, `0` or
      nothing, then 2, 3 or 5, then eight more digits. */
  lemma GhanaPhone(phone: string, country: string)
    requires ToUpperCase(country) == "GH"
    ensures var d := DigitsOnly(phone);
            ValidatePhone(phone, country) <==>
              || (|d| == 12 && d[..3] == "233" && d[3] in {'2', '3', '5'})
              || (|d| == 10 && d[0] == '0' && d[1] in {'2', '3', '5'})
              || (|d| == 9 && d[0] in {'2', '3', '5'})
  {
    assert PhonePatterns["GH"] == GhanaPattern;
    GhanaTest(DigitsOnly(phone));
  }

  /** The country is looked up case-insensitively. */
  lemma ValidatePhoneIgnoresCase(phone: string, country: string)
    ensures ValidatePhone(phone, country) == ValidatePhone(phone, ToUpperCase(country))
  {
    ToUpperCaseIdempotent(country);
  }

  /** Only the digits of the number matter. */
  lemma ValidatePhoneOnlyDigits(phone: string, country: string)
    ensures ValidatePhone(phone, country) == ValidatePhone(DigitsOnly(phone), country)
  {
    DigitsOnlyIdempotent(phone);
  }

  // ---------------------------------------------------------------------------
  // formatPhone
  // ---------------------------------------------------------------------------

  /** `ddd ddd dddd` for a ten-character local number. */
  function Grouped(local: string): (r: string)
    requires |local| == 10
    ensures |r| == 12 && r[3] == ' ' && r[7] == ' '
    ensures r[..3] == local[..3] && r[4..7] == local[3..6] && r[8..] == local[6..]
  {
    local[..3] + " " + local[3..6] + " " + local[6..]
  }

  /** The `0`-prefixed local form of a Ghanaian number's digits: from twelve
      digits after `233`, or ten digits starting with `0`. */
  function GhanaLocal(digits: string): (local: Option<string>)
    ensures local.Some? <==> (|digits| == 12 && StartsWith(digits, "233")) || (|digits| == 10 && StartsWith(digits, "0"))
    ensures local.Some? ==> |local.value| == 10 && local.value[0] == '0'
    ensures local.Some? ==> local.value[1..] == digits[|digits| - 9..]
  {
    if StartsWith(digits, "233") && |digits| == 12 then Some("0" + digits[3..])
    else if |digits| == 10 && StartsWith(digits, "0") then Some(digits)
    else None
  }

  /** formatPhone: only for the exact country code `GH`, and only when the
      digits have a local form, is the number regrouped; otherwise the input
      comes back unchanged. */
  function FormatPhone(phone: string, country: string): (r: string)
    ensures country != "GH" ==> r == phone
    ensures GhanaLocal(DigitsOnly(phone)).None? ==> r == phone
    ensures r == phone || (|r| == 12 && r[3] == ' ' && r[7] == ' ')
    ensures country == "GH" && GhanaLocal(DigitsOnly(phone)).Some? ==> |r| == 12 && r[3] == ' ' && r[7] == ' '
  {
    var local := GhanaLocal(DigitsOnly(phone));
    if country == "GH" && local.Some? then Grouped(local.value) else phone
  }

  /** The spaces that grouping inserts are not digits. */
  lemma GroupedDigits(local: string)
    requires |local| == 10
    ensures DigitsOnly(Grouped(local)) == DigitsOnly(local)
  {
    var a, b, c := local[..3], local[3..6], local[6..];
    assert DigitsOnly(" ") == [];
    calc {
      DigitsOnly(Grouped(local));
      DigitsOnly(a + " " + b + " " + c);
      { DigitsOnlyAppend(a + " " + b + " ", c); }
      DigitsOnly(a + " " + b + " ") + DigitsOnly(c);
      { DigitsOnlyAppend(a + " " + b, " "); }
      DigitsOnly(a + " " + b) + DigitsOnly(c);
      { DigitsOnlyAppend(a + " ", b); DigitsOnlyAppend(a, " "); }
      DigitsOnly(a) + DigitsOnly(b) + DigitsOnly(c);
      { DigitsOnlyAppend(a, b); }
      DigitsOnly(a + b) + DigitsOnly(c);
      { DigitsOnlyAppend(a + b, c); }
      DigitsOnly(a + b + c);
      { assert a + b + c == local; }
      DigitsOnly(local);
    }
  }

  /** The digits of a formatted number are its `0`-prefixed local number. */
  lemma FormatPhoneDigits(phone: string)
    requires GhanaLocal(DigitsOnly(phone)).Some?
    ensures DigitsOnly(FormatPhone(phone, "GH")) == GhanaLocal(DigitsOnly(phone)).value
  {
    var digits := DigitsOnly(phone);
    var local := GhanaLocal(digits).value;
    GroupedDigits(local);
    assert forall i :: 0 <= i < |local| ==> IsDigit(local[i]) by {
      if |digits| == 12 {
        assert local == "0" + digits[3..];
      } else {
        assert local == digits;
      }
    }
  }

  /** Formatting a Ghanaian number twice is formatting it once. */
  lemma FormatPhoneIdempotent(phone: string)
    ensures FormatPhone(FormatPhone(phone, "GH"), "GH") == FormatPhone(phone, "GH")
  {
    var local := GhanaLocal(DigitsOnly(phone));
    if local.Some? {
      FormatPhoneDigits(phone);
      var r := FormatPhone(phone, "GH");
      assert DigitsOnly(r) == local.value;
      assert !StartsWith(local.value, "233");
      assert GhanaLocal(DigitsOnly(r)) == local;
    }
  }

  /** Formatting keeps a Ghanaian number's validity. */
  lemma FormatPhoneKeepsValidity(phone: string)
    ensures ValidatePhone(FormatPhone(phone, "GH"), "GH") == ValidatePhone(phone, "GH")
  {
    assert ToUpperCase("GH") == "GH" by { ToUpperCaseOfUpper("GH"); }
    GhanaPhone(phone, "GH");
    GhanaPhone(FormatPhone(phone, "GH"), "GH");
    if GhanaLocal(DigitsOnly(phone)).Some? {
      FormatPhoneDigits(phone);
    }
  }

  // ---------------------------------------------------------------------------
  // detectNetwork
  // ---------------------------------------------------------------------------

  /** MobileMoneyNetwork. */
  datatype Network = Mtn | Telecel | AirtelTigo

  const MtnPrefixes: seq<string> := ["24", "25", "53", "54", "55", "59"]
  const TelecelPrefixes: seq<string> := ["20", "50"]
  const AirtelTigoPrefixes: seq<string> := ["26", "27", "56", "57"]

  /** The two digits after the country code `233` or the trunk `0`, else the
      first two digits (fewer when the digits run out). */
  /** The digit string is long enough for the prefix slice to take two
      characters (a shorter slice is shorter than every listed prefix). */
  predicate FullPrefix(digits: string)
  {
    if StartsWith(digits, "233") then |digits| >= 5
    else if StartsWith(digits, "0") then |digits| >= 3
    else |digits| >= 2
  }

  function NetworkPrefix(digits: string): (prefix: string)
    ensures |prefix| <= 2
    ensures |prefix| == 2 <==> FullPrefix(digits)
    ensures |digits| >= 5 && StartsWith(digits, "233") ==> prefix == digits[3..5]
    ensures |digits| >= 3 && !StartsWith(digits, "233") && digits[0] == '0' ==> prefix == digits[1..3]
    ensures |digits| >= 2 && !StartsWith(digits, "233") && digits[0] != '0' ==> prefix == digits[..2]
  {
    if StartsWith(digits, "233") then Slice(digits, 3, 5)
    else if StartsWith(digits, "0") then Slice(digits, 1, 3)
    else Slice(digits, 0, 2)
  }

  /** detectNetwork: the network whose prefix list holds the number's
      prefix; the three lists are disjoint, so at most one does. */
  function DetectNetwork(phone: string): (network: Option<Network>)
    ensures network == Some(Mtn) <==> NetworkPrefix(DigitsOnly(phone)) in MtnPrefixes
    ensures network == Some(Telecel) <==> NetworkPrefix(DigitsOnly(phone)) in TelecelPrefixes
    ensures network == Some(AirtelTigo) <==> NetworkPrefix(DigitsOnly(phone)) in AirtelTigoPrefixes
  {
    var prefix := NetworkPrefix(DigitsOnly(phone));
    PrefixListsDisjoint(prefix);
    if prefix in MtnPrefixes then Some(Mtn)
    else if prefix in TelecelPrefixes then Some(Telecel)
    else if prefix in AirtelTigoPrefixes then Some(AirtelTigo)
    else None
  }

  /** No prefix belongs to two networks. */
  /** A number whose prefix slice is cut short matches no network. */
  lemma ShortNumberNoNetwork(phone: string)
    requires !FullPrefix(DigitsOnly(phone))
    ensures DetectNetwork(phone) == None
  {
    var prefix := NetworkPrefix(DigitsOnly(phone));
    assert |prefix| < 2;
    PrefixLengths(prefix);
  }

  /** Every listed prefix is two digits long. */
  lemma PrefixLengths(prefix: string)
    ensures prefix in MtnPrefixes + TelecelPrefixes + AirtelTigoPrefixes ==> |prefix| == 2
  {
  }

  lemma PrefixListsDisjoint(prefix: string)
    ensures prefix in MtnPrefixes ==> prefix !in TelecelPrefixes && prefix !in AirtelTigoPrefixes
    ensures prefix in TelecelPrefixes ==> prefix !in AirtelTigoPrefixes
  {
    if prefix in MtnPrefixes || prefix in TelecelPrefixes {
      assert |prefix| == 2;
      assert prefix[1] in {'0', '4', '5', '3', '9'};
    }
  }

  /** A number written with the trunk `0` and the same number written with
      the country code `233` are on the same network. */
  lemma {:induction false} NetworkIgnoresCountryCode(rest: string)
    ensures DetectNetwork("0" + rest) == DetectNetwork("233" + rest)
  {
    DigitsOnlyAppend("0", rest);
    DigitsOnlyAppend("233", rest);
    assert DigitsOnly("0") == "0";
    assert DigitsOnly("233") == "233" by {
      assert forall i :: 0 <= i < 3 ==> IsDigit("233"[i]);
    }
    PrefixIgnoresCountryCode(DigitsOnly(rest));
  }

  /** The prefix slice skips a leading `0` or `233` alike. */
  lemma PrefixIgnoresCountryCode(d: string)
    ensures NetworkPrefix("0" + d) == NetworkPrefix("233" + d)
  {
    SliceAfterPrefix("0", d, 0, 2);
    SliceAfterPrefix("233", d, 0, 2);
    assert ("0" + d)[0] == '0';
    assert !StartsWith("0" + d, "233");
    assert StartsWith("0" + d, "0");
    assert ("233" + d)[..3] == "233";
    assert NetworkPrefix("0" + d) == Slice("0" + d, 1, 3);
    assert NetworkPrefix("233" + d) == Slice("233" + d, 3, 5);
  }

  /** Formatting a number does not change its network. */
  lemma FormatPhoneKeepsNetwork(phone: string)
    ensures DetectNetwork(FormatPhone(phone, "GH")) == DetectNetwork(phone)
  {
    var d := DigitsOnly(phone);
    if GhanaLocal(d).Some? {
      FormatPhoneDigits(phone);
      var local := GhanaLocal(d).value;
      DigitsOnlyIdempotent(phone);
      if StartsWith(d, "233") && |d| == 12 {
        assert local == "0" + d[3..];
        assert d == "233" + d[3..];
        assert DetectNetwork(d) == DetectNetwork(phone) by {
          DigitsOnlyIdempotent(phone);
        }
        NetworkIgnoresCountryCode(d[3..]);
        DigitsOnlyIdempotent(local);
      }
    }
  }

  // ---------------------------------------------------------------------------
  // getContrastingColor
  // ---------------------------------------------------------------------------

  const DarkForeground: string := "#0b1120"
  const LightForeground: string := "#ffffff"

  /** `#abc` becomes `#aabbcc`; any other string is kept. */
  function Normalize(hex: string): (r: string)
    ensures |hex| != 4 ==> r == hex
  {
    if |hex| == 4 then ['#', hex[1], hex[1], hex[2], hex[2], hex[3], hex[3]] else hex
  }

  /** Perceived brightness times 1000: `r * 299 + g * 587 + b * 114`. */
  function Brightness(r: int, g: int, b: int): (y: int)
    ensures 0 <= r <= 255 && 0 <= g <= 255 && 0 <= b <= 255 ==> 0 <= y <= 255000
    ensures r == g == b ==> y == 1000 * r
  {
    r * 299 + g * 587 + b * 114
  }

  /** The foreground for a trimmed colour string. */
  function ContrastOfHex(hex: string): (r: Option<string>)
    ensures r.Some? ==> StartsWith(hex, "#") && |Normalize(hex)| == 7
    ensures r.Some? ==> r.value == DarkForeground || r.value == LightForeground
  {
    if !StartsWith(hex, "#") then None
    else
      var normalized := Normalize(hex);
      if |normalized| != 7 then None
      else
        var r := ParseIntHex(normalized[1..3]);
        var g := ParseIntHex(normalized[3..5]);
        var b := ParseIntHex(normalized[5..7]);
        if r.None? || g.None? || b.None? then None
        else if Brightness(r.value, g.value, b.value) >= 140 * 1000 then Some(DarkForeground)
        else Some(LightForeground)
  }

  /** getContrastingColor: for a `#rgb` or `#rrggbb` colour (after trimming)
      whose three channels parse, dark text on bright colours and white text
      on dark ones; `None` (null) otherwise. */
  function GetContrastingColor(color: string): (r: Option<string>)
    ensures r.Some? ==> StartsWith(Trim(color), "#") && |Normalize(Trim(color))| == 7
    ensures r.Some? ==> r.value == DarkForeground || r.value == LightForeground
  {
    ContrastOfHex(Trim(color))
  }

  predicate AllHex(s: string) {
    forall i :: 0 <= i < |s| ==> IsHexDigit(s[i])
  }

  /** The value of the hexadecimal pair at `s[i]`, `s[i + 1]`. */
  function PairValue(s: string, i: nat): nat
    requires i + 1 < |s| && IsHexDigit(s[i]) && IsHexDigit(s[i + 1])
  {
    16 * HexDigitValue(s[i]) + HexDigitValue(s[i + 1])
  }

  /** For `#rrggbb` written in hexadecimal digits, the dark foreground is
      chosen exactly when `299r + 587g + 114b >= 140000`. */
  lemma ContrastOfSixDigits(digits: string)
    requires |digits| == 6 && AllHex(digits)
    ensures ContrastOfHex("#" + digits) ==
              Some(if Brightness(PairValue(digits, 0), PairValue(digits, 2), PairValue(digits, 4)) >= 140000
                   then DarkForeground else LightForeground)
  {
    var n := "#" + digits;
    assert n[1..3] == [digits[0], digits[1]];
    assert n[3..5] == [digits[2], digits[3]];
    assert n[5..7] == [digits[4], digits[5]];
    ParseIntHexPair(digits[0], digits[1]);
    ParseIntHexPair(digits[2], digits[3]);
    ParseIntHexPair(digits[4], digits[5]);
  }

  /** The same for any colour that trims to `#rrggbb`. */
  lemma ContrastOfHexColor(color: string, digits: string)
    requires |digits| == 6 && AllHex(digits)
    requires Trim(color) == "#" + digits
    ensures GetContrastingColor(color) ==
              Some(if Brightness(PairValue(digits, 0), PairValue(digits, 2), PairValue(digits, 4)) >= 140000
                   then DarkForeground else LightForeground)
  {
    ContrastOfSixDigits(digits);
  }

  /** The foreground depends only on the six-digit form of the colour. */
  lemma ContrastOfNormalized(h1: string, h2: string)
    requires StartsWith(h1, "#") && StartsWith(h2, "#")
    requires Normalize(h1) == Normalize(h2)
    ensures ContrastOfHex(h1) == ContrastOfHex(h2)
  {
  }

  /** A colour string starting with `#` and ending in a hexadecimal digit
      is its own trim. */
  lemma TrimHexColor(h: string)
    requires |h| >= 1 && h[0] == '#' && IsHexDigit(h[|h| - 1])
    ensures Trim(h) == h
    ensures GetContrastingColor(h) == ContrastOfHex(h)
  {
    TrimNoWhitespace(h);
  }

  /** The six digits `aabbcc` of the shorthand digits `abc`. */
  function Doubled(d: string): (r: string)
    requires |d| == 3
    ensures |r| == 6 && r[5] == d[2]
  {
    [d[0], d[0], d[1], d[1], d[2], d[2]]
  }

  lemma ContrastOfShorthand(d: string)
    requires |d| == 3
    ensures ContrastOfHex("#" + d) == ContrastOfHex("#" + Doubled(d))
  {
    var long := "#" + Doubled(d);
    assert Normalize("#" + d) == long;
    assert Normalize(long) == long;
    ContrastOfNormalized("#" + d, long);
  }

  /** The shorthand `#abc` is its own trim. */
  lemma ShortTrim(d: string)
    requires |d| == 3 && AllHex(d)
    ensures GetContrastingColor("#" + d) == ContrastOfHex("#" + d)
  {
    var h := "#" + d;
    assert h[0] == '#' && h[|h| - 1] == d[2];
    TrimHexColor(h);
  }

  /** The expansion `#aabbcc` is its own trim. */
  lemma LongTrim(d: string)
    requires |d| == 3 && AllHex(d)
    ensures GetContrastingColor("#" + Doubled(d)) == ContrastOfHex("#" + Doubled(d))
  {
    var h := "#" + Doubled(d);
    assert h[0] == '#' && h[|h| - 1] == d[2];
    TrimHexColor(h);
  }

  /** The shorthand `#abc` gets the same foreground as `#aabbcc`. */
  lemma ShorthandAgrees(d: string)
    requires |d| == 3 && AllHex(d)
    ensures GetContrastingColor("#" + d) == GetContrastingColor("#" + Doubled(d))
  {
    ShortTrim(d);
    LongTrim(d);
    ContrastOfShorthand(d);
  }

  // ---------------------------------------------------------------------------
  // createThemeVariables
  // ---------------------------------------------------------------------------

  /** The fields of ReevitTheme that createThemeVariables reads. */
  datatype Theme = Theme(
    primaryColor: Option<string>,
    primaryForegroundColor: Option<string>,
    backgroundColor: Option<string>,
    surfaceColor: Option<string>,
    textColor: Option<string>,
    mutedTextColor: Option<string>,
    borderRadius: Option<string>,
    fontFamily: Option<string>)

  /** A theme field that is truthy, else nothing. */
  function IfTruthy(s: Option<string>): (r: Option<string>)
    ensures r.Some? <==> Truthy(s)
    ensures r.Some? ==> r == s
  {
    if Truthy(s) then s else None
  }

  /** The CSS custom properties a theme can set. */
  datatype CssVariable =
    | Primary | PrimaryForeground | Background | Surface | Text | TextSecondary
    | Radius | RadiusSmall | RadiusLarge | Font

  function VariableName(v: CssVariable): string {
    match v
    case Primary => "--reevit-primary"
    case PrimaryForeground => "--reevit-primary-foreground"
    case Background => "--reevit-background"
    case Surface => "--reevit-surface"
    case Text => "--reevit-text"
    case TextSecondary => "--reevit-text-secondary"
    case Radius => "--reevit-radius"
    case RadiusSmall => "--reevit-radius-sm"
    case RadiusLarge => "--reevit-radius-lg"
    case Font => "--reevit-font"
  }

  /** The property a name denotes, if any. */
  function VariableOf(name: string): (v: Option<CssVariable>)
    ensures v.Some? ==> VariableName(v.value) == name
  {
    if name == "--reevit-primary" then Some(Primary)
    else if name == "--reevit-primary-foreground" then Some(PrimaryForeground)
    else if name == "--reevit-background" then Some(Background)
    else if name == "--reevit-surface" then Some(Surface)
    else if name == "--reevit-text" then Some(Text)
    else if name == "--reevit-text-secondary" then Some(TextSecondary)
    else if name == "--reevit-radius" then Some(Radius)
    else if name == "--reevit-radius-sm" then Some(RadiusSmall)
    else if name == "--reevit-radius-lg" then Some(RadiusLarge)
    else if name == "--reevit-font" then Some(Font)
    else None
  }

  /** Every property's name leads back to it, so no two properties share a
      name. */
  lemma VariableNamesDistinct(v: CssVariable)
    ensures VariableOf(VariableName(v)) == Some(v)
  {
    match v
    case Primary =>
    case PrimaryForeground =>
      assert |VariableName(v)| == 27;
    case Background =>
      assert |VariableName(v)| == 19;
    case Surface =>
      assert VariableName(v)[9] == 's';
    case Text =>
      assert VariableName(v)[9] == 't';
    case TextSecondary =>
      assert |VariableName(v)| == 23;
    case Radius =>
      assert |VariableName(v)| == 15;
    case RadiusSmall =>
      assert VariableName(v)[16] == 's';
    case RadiusLarge =>
      assert VariableName(v)[16] == 'l';
    case Font =>
      assert VariableName(v)[9] == 'f';
  }

  /** The value a theme gives one CSS custom property: the reference the
      sequential construction is checked against. */
  function ThemeVariable(theme: Theme, v: CssVariable): Option<string> {
    match v
    case Primary => IfTruthy(theme.primaryColor)
    case PrimaryForeground =>
      if !Truthy(theme.primaryColor) then None
      else if Truthy(theme.primaryForegroundColor) then theme.primaryForegroundColor
      else GetContrastingColor(theme.primaryColor.value)
    case Background => IfTruthy(theme.backgroundColor)
    case Surface => IfTruthy(theme.surfaceColor)
    case Text => IfTruthy(theme.textColor)
    case TextSecondary => IfTruthy(theme.mutedTextColor)
    case Radius => IfTruthy(theme.borderRadius)
    case RadiusSmall => IfTruthy(theme.borderRadius)
    case RadiusLarge => IfTruthy(theme.borderRadius)
    case Font => IfTruthy(theme.fontFamily)
  }

  /** The position of each property's assignment in createThemeVariables. */
  function Position(v: CssVariable): (n: nat)
    ensures n < 10
  {
    match v
    case Primary => 0
    case PrimaryForeground => 1
    case Background => 2
    case Surface => 3
    case Text => 4
    case TextSecondary => 5
    case Radius => 6
    case RadiusSmall => 7
    case RadiusLarge => 8
    case Font => 9
  }

  /** `vars` holds exactly the properties before position `done` that the
      theme sets, with their values, and nothing else. */
  ghost predicate Agrees(vars: map<string, string>, theme: Theme, done: nat) {
    && (forall v :: VariableName(v) in vars <==> Position(v) < done && ThemeVariable(theme, v).Some?)
    && (forall v :: VariableName(v) in vars ==> vars[VariableName(v)] == ThemeVariable(theme, v).value)
    && (forall name :: name in vars ==> VariableOf(name).Some?)
  }

  /** Writing the value of a property the theme sets extends the agreement. */
  lemma AgreesAfterSet(vars: map<string, string>, theme: Theme, v: CssVariable)
    requires Agrees(vars, theme, Position(v)) && ThemeVariable(theme, v).Some?
    ensures Agrees(vars[VariableName(v) := ThemeVariable(theme, v).value], theme, Position(v) + 1)
  {
    var r := vars[VariableName(v) := ThemeVariable(theme, v).value];
    VariableNamesDistinct(v);
    forall w | w != v
      ensures (VariableName(w) in r <==> VariableName(w) in vars)
      ensures VariableName(w) in r ==> r[VariableName(w)] == vars[VariableName(w)]
    {
      VariableNamesDistinct(w);
      assert VariableName(w) != VariableName(v);
      PositionInjective(v, w);
    }
  }

  /** Each variable has its own place in the order. */
  lemma PositionInjective(v: CssVariable, w: CssVariable)
    ensures Position(v) == Position(w) ==> v == w
  {
  }

  /** Skipping a property the theme does not set extends the agreement. */
  lemma AgreesAfterSkip(vars: map<string, string>, theme: Theme, v: CssVariable)
    requires Agrees(vars, theme, Position(v)) && ThemeVariable(theme, v).None?
    ensures Agrees(vars, theme, Position(v) + 1)
  {
    forall w ensures VariableName(w) in vars <==> Position(w) < Position(v) + 1 && ThemeVariable(theme, w).Some? {
      if w == v {
        VariableNamesDistinct(v);
      }
    }
  }

  /** One step of createThemeVariables, `if (value) vars[name] = value`. */
  method SetIfTruthy(vars: map<string, string>, v: CssVariable, value: Option<string>, ghost theme: Theme)
    returns (r: map<string, string>)
    requires Agrees(vars, theme, Position(v)) && ThemeVariable(theme, v) == IfTruthy(value)
    ensures Agrees(r, theme, Position(v) + 1)
  {
    if Truthy(value) {
      AgreesAfterSet(vars, theme, v);
      r := vars[VariableName(v) := value.value];
    } else {
      AgreesAfterSkip(vars, theme, v);
      r := vars;
    }
  }

  /** createThemeVariables: build the dictionary one truthy field at a time.
      It holds a property exactly when ThemeVariable gives it a value, holds
      that value, and holds nothing else. */
  method CreateThemeVariables(theme: Theme) returns (vars: map<string, string>)
    ensures forall v :: VariableName(v) in vars <==> ThemeVariable(theme, v).Some?
    ensures forall v :: VariableName(v) in vars ==> vars[VariableName(v)] == ThemeVariable(theme, v).value
    ensures forall name :: name in vars ==> VariableOf(name).Some?
  {
    vars := map[];
    vars := SetIfTruthy(vars, Primary, theme.primaryColor, theme);
    if Truthy(theme.primaryColor) {
      if Truthy(theme.primaryForegroundColor) {
        vars := SetIfTruthy(vars, PrimaryForeground, theme.primaryForegroundColor, theme);
      } else {
        var contrast := GetContrastingColor(theme.primaryColor.value);
        vars := SetIfTruthy(vars, PrimaryForeground, contrast, theme);
      }
    } else {
      vars := SetIfTruthy(vars, PrimaryForeground, None, theme);
    }
    vars := SetIfTruthy(vars, Background, theme.backgroundColor, theme);
    vars := SetIfTruthy(vars, Surface, theme.surfaceColor, theme);
    vars := SetIfTruthy(vars, Text, theme.textColor, theme);
    vars := SetIfTruthy(vars, TextSecondary, theme.mutedTextColor, theme);
    vars := SetIfTruthy(vars, Radius, theme.borderRadius, theme);
    vars := SetIfTruthy(vars, RadiusSmall, theme.borderRadius, theme);
    vars := SetIfTruthy(vars, RadiusLarge, theme.borderRadius, theme);
    vars := SetIfTruthy(vars, Font, theme.fontFamily, theme);
  }

  /** Every property a theme sets has a non-empty value: the theme's own
      truthy field, or one of the two contrast colours. */
  lemma ThemeValuesNonEmpty(theme: Theme, v: CssVariable)
    requires ThemeVariable(theme, v).Some?
    ensures ThemeVariable(theme, v).value != ""
  {
    if v == PrimaryForeground && !Truthy(theme.primaryForegroundColor) {
      assert |DarkForeground| == 7 && |LightForeground| == 7;
    }
  }

  /** The foreground is set only alongside a primary colour; an explicit
      foreground wins over the computed contrast, which is used otherwise. */
  lemma ThemeForeground(theme: Theme)
    ensures ThemeVariable(theme, PrimaryForeground).Some? ==> ThemeVariable(theme, Primary).Some?
    ensures Truthy(theme.primaryColor) && Truthy(theme.primaryForegroundColor) ==>
              ThemeVariable(theme, PrimaryForeground) == theme.primaryForegroundColor
    ensures Truthy(theme.primaryColor) && !Truthy(theme.primaryForegroundColor) ==>
              ThemeVariable(theme, PrimaryForeground) == GetContrastingColor(theme.primaryColor.value)
  {
  }

  /** The three radius properties are set together, to the same value. */
  lemma ThemeRadii(theme: Theme)
    ensures ThemeVariable(theme, RadiusSmall) == ThemeVariable(theme, Radius) == ThemeVariable(theme, RadiusLarge)
    ensures ThemeVariable(theme, Radius).Some? <==> Truthy(theme.borderRadius)
  {
  }

  // ---------------------------------------------------------------------------
  // cn
  // ---------------------------------------------------------------------------

  /** An argument of cn: `string | boolean | undefined | null`. */
  datatype ClassValue = Str(text: string) | Flag(flag: bool) | Undefined | Null

  /** `Boolean(v)`. */
  predicate IsTruthy(v: ClassValue) {
    (v.Str? && v.text != "") || (v.Flag? && v.flag)
  }

  /** The string `join` makes of a truthy argument. */
  function ClassText(v: ClassValue): (s: string)
    requires IsTruthy(v)
    ensures s != ""
    ensures v.Str? ==> s == v.text
    ensures v.Flag? ==> s == "true"
  {
    if v.Str? then v.text else "true"
  }

  /** `classes.filter(Boolean)`, as the strings `join` writes. */
  function TruthyClasses(args: seq<ClassValue>): (words: seq<string>)
    ensures |words| <= |args|
    ensures forall i :: 0 <= i < |words| ==> words[i] != ""
    ensures words == [] <==> forall i :: 0 <= i < |args| ==> !IsTruthy(args[i])
  {
    if args == [] then []
    else (if IsTruthy(args[0]) then [ClassText(args[0])] else []) + TruthyClasses(args[1..])
  }

  /** `words.join(sep)`. */
  function Join(words: seq<string>, sep: string): (r: string)
    ensures words != [] ==> StartsWith(r, words[0])
    ensures |words| == 1 ==> r == words[0]
    ensures words == [] ==> r == ""
  {
    if words == [] then ""
    else if |words| == 1 then words[0]
    else words[0] + sep + Join(words[1..], sep)
  }

  /** cn: the truthy arguments, in order, joined by single spaces; the empty
      string exactly when no argument is truthy. */
  function Cn(args: seq<ClassValue>): (r: string)
    ensures r == "" <==> forall i :: 0 <= i < |args| ==> !IsTruthy(args[i])
  {
    var words := TruthyClasses(args);
    assert words != [] ==> Join(words, " ") != "" by {
      if words != [] {
        assert Join(words, " ")[..|words[0]|] == words[0];
      }
    }
    Join(words, " ")
  }

  /** `classes.filter(Boolean)` keeps a truthy argument as its text and
      drops any other. */
  lemma TruthyClassesOne(v: ClassValue)
    ensures TruthyClasses([v]) == if IsTruthy(v) then [ClassText(v)] else []
  {
    assert [v][1..] == [];
  }

  /** The class-string arguments `ws[0], ws[1], …`. */
  function Strs(ws: seq<string>): (args: seq<ClassValue>)
    ensures |args| == |ws|
    ensures forall i :: 0 <= i < |ws| ==> args[i] == Str(ws[i])
  {
    if ws == [] then [] else [Str(ws[0])] + Strs(ws[1..])
  }

  /** Non-empty class strings all pass the filter, unchanged and in order. */
  lemma {:induction false} TruthyClassesOfStrs(ws: seq<string>)
    requires forall i :: 0 <= i < |ws| ==> ws[i] != ""
    ensures TruthyClasses(Strs(ws)) == ws
  {
    if ws != [] {
      var args := Strs(ws);
      assert args[1..] == Strs(ws[1..]);
      TruthyClassesOfStrs(ws[1..]);
      assert ws == [ws[0]] + ws[1..];
    }
  }

  /** cn of non-empty class strings is those strings joined by single
      spaces. */
  lemma CnOfStrs(ws: seq<string>)
    requires forall i :: 0 <= i < |ws| ==> ws[i] != ""
    ensures Cn(Strs(ws)) == Join(ws, " ")
  {
    TruthyClassesOfStrs(ws);
  }

  lemma {:induction false} TruthyClassesAppend(a: seq<ClassValue>, b: seq<ClassValue>)
    ensures TruthyClasses(a + b) == TruthyClasses(a) + TruthyClasses(b)
  {
    if a == [] {
      assert a + b == b;
    } else {
      assert (a + b)[1..] == a[1..] + b;
      TruthyClassesAppend(a[1..], b);
    }
  }

  /** Two class strings side by side, with one space between them when both
      are non-empty. */
  function JoinTwo(x: string, y: string): string {
    if x == "" then y else if y == "" then x else x + " " + y
  }

  lemma {:induction false} JoinAppend(a: seq<string>, b: seq<string>)
    requires forall i :: 0 <= i < |a| ==> a[i] != ""
    requires forall i :: 0 <= i < |b| ==> b[i] != ""
    ensures Join(a + b, " ") == JoinTwo(Join(a, " "), Join(b, " "))
  {
    if a == [] {
      assert a + b == b;
    } else if b == [] {
      assert a + b == a;
    } else if |a| == 1 {
      assert (a + b)[1..] == b;
      assert Join(b, " ") != "" by { assert |b[0]| <= |Join(b, " ")|; }
    } else {
      assert (a + b)[1..] == a[1..] + b;
      JoinAppend(a[1..], b);
      assert Join(a[1..], " ") != "" by { assert |a[1]| <= |Join(a[1..], " ")|; }
      assert Join(b, " ") != "" by { assert |b[0]| <= |Join(b, " ")|; }
    }
  }

  /** cn over two argument lists joins their results with one space. */
  lemma CnAppend(a: seq<ClassValue>, b: seq<ClassValue>)
    ensures Cn(a + b) == JoinTwo(Cn(a), Cn(b))
  {
    TruthyClassesAppend(a, b);
    JoinAppend(TruthyClasses(a), TruthyClasses(b));
  }

  /** `s.split(' ')`. */
  function Split(s: string): (parts: seq<string>)
    ensures |parts| >= 1
  {
    if s == [] then [""]
    else
      var rest := Split(s[1..]);
      if s[0] == ' ' then [""] + rest else [[s[0]] + rest[0]] + rest[1..]
  }

  predicate NoSpace(w: string) {
    forall i :: 0 <= i < |w| ==> w[i] != ' '
  }

  /** A space-free word in front of `t` extends the first part of `t`. */
  lemma {:induction false} SplitAfterWord(w: string, t: string)
    requires NoSpace(w)
    ensures Split(w + t) == [w + Split(t)[0]] + Split(t)[1..]
  {
    if w == [] {
      assert w + t == t && w + Split(t)[0] == Split(t)[0];
    } else {
      assert (w + t)[0] == w[0] && (w + t)[1..] == w[1..] + t;
      SplitAfterWord(w[1..], t);
      var rest := Split(w[1..] + t);
      assert rest[0] == w[1..] + Split(t)[0] && rest[1..] == Split(t)[1..];
      assert [w[0]] + rest[0] == w + Split(t)[0];
    }
  }

  /** Splitting on spaces undoes joining space-free words with spaces. */
  lemma {:induction false} SplitJoin(words: seq<string>)
    requires words != []
    requires forall i :: 0 <= i < |words| ==> NoSpace(words[i])
    ensures Split(Join(words, " ")) == words
  {
    if |words| == 1 {
      SplitAfterWord(words[0], "");
      assert words[0] + "" == words[0];
    } else {
      var rest := Join(words[1..], " ");
      SplitJoin(words[1..]);
      assert Split(" " + rest) == [""] + Split(rest) by {
        assert (" " + rest)[1..] == rest;
      }
      SplitAfterWord(words[0], " " + rest);
      assert Join(words, " ") == words[0] + (" " + rest);
      assert Split(" " + rest)[0] == "" && Split(" " + rest)[1..] == words[1..];
      assert words[0] + "" == words[0];
      assert words == [words[0]] + words[1..];
    }
  }

  /** When no class string holds a space, splitting cn's result on spaces
      gives back the truthy arguments in order. */
  lemma CnSplit(args: seq<ClassValue>)
    requires exists i :: 0 <= i < |args| && IsTruthy(args[i])
    requires forall i :: 0 <= i < |args| && args[i].Str? ==> NoSpace(args[i].text)
    ensures Split(Cn(args)) == TruthyClasses(args)
  {
    TruthyClassesNoSpace(args);
    SplitJoin(TruthyClasses(args));
  }

  /** Splitting cn's result on spaces gives back non-empty, space-free
      class strings, in order. */
  lemma CnSplitStrs(ws: seq<string>)
    requires ws != []
    requires forall i :: 0 <= i < |ws| ==> ws[i] != "" && NoSpace(ws[i])
    ensures Split(Cn(Strs(ws))) == ws
  {
    CnOfStrs(ws);
    SplitJoin(ws);
  }

  lemma {:induction false} TruthyClassesNoSpace(args: seq<ClassValue>)
    requires forall i :: 0 <= i < |args| && args[i].Str? ==> NoSpace(args[i].text)
    ensures forall i :: 0 <= i < |TruthyClasses(args)| ==> NoSpace(TruthyClasses(args)[i])
  {
    if args != [] {
      TruthyClassesNoSpace(args[1..]);
      assert NoSpace("true");
    }
  }

  // ---------------------------------------------------------------------------
  // detectCountryFromCurrency
  // ---------------------------------------------------------------------------

  const CurrencyCountries: map<string, string> := map[
    "GHS" := "GH", "NGN" := "NG", "KES" := "KE", "UGX" := "UG", "TZS" := "TZ", "ZAR" := "ZA",
    "XOF" := "CI", "XAF" := "CM", "USD" := "US", "EUR" := "DE", "GBP" := "GB"]

  /** detectCountryFromCurrency: the table's country for the upper-cased
      currency code, and Ghana for any code the table lacks. */
  function DetectCountryFromCurrency(currency: string): (country: string)
    ensures ToUpperCase(currency) in CurrencyCountries ==> country == CurrencyCountries[ToUpperCase(currency)]
    ensures ToUpperCase(currency) !in CurrencyCountries ==> country == "GH"
    ensures country in CurrencyCountries.Values
  {
    var code := ToUpperCase(currency);
    assert CurrencyCountries["GHS"] == "GH";
    if code in CurrencyCountries then CurrencyCountries[code] else "GH"
  }

  /** The currency code is looked up case-insensitively. */
  lemma DetectCountryIgnoresCase(currency: string)
    ensures DetectCountryFromCurrency(currency) == DetectCountryFromCurrency(ToUpperCase(currency))
  {
    ToUpperCaseIdempotent(currency);
  }

  /** A lower-case code finds the same country as its upper-case form. */
  lemma LowerCaseCurrency()
    ensures DetectCountryFromCurrency("usd") == "US"
    ensures DetectCountryFromCurrency("ngn") == "NG"
  {
    UpperUsd();
    UpperNgn();
  }

  lemma UpperUsd()
    ensures ToUpperCase("usd") == "USD"
  {
    assert UpperChar('u') == "U" && UpperChar('s') == "S" && UpperChar('d') == "D";
    assert "usd"[1..] == "sd" && "sd"[1..] == "d" && "d"[1..] == "";
  }

  lemma UpperNgn()
    ensures ToUpperCase("ngn") == "NGN"
  {
    assert UpperChar('n') == "N" && UpperChar('g') == "G";
    assert "ngn"[1..] == "gn" && "gn"[1..] == "n" && "n"[1..] == "";
  }
}
