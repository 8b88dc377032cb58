/** Phone number to ISO country code: separators are dropped, the number
    must carry an international prefix (`+` or `00`), and the calling-code
    table is tried with the first three, two and one digits in that order. */
module Country {
  import opened Wrappers
  import opened Text

  /** `COUNTRY_CALLING_CODES`: calling code to ISO 3166 alpha-2 code. */
  function CallingCode(code: string): Option<string> {
    match code
    case "1" => Some("US")  case "7" => Some("RU")  case "20" => Some("EG") case "27" => Some("ZA")
    case "30" => Some("GR") case "31" => Some("NL") case "32" => Some("BE") case "33" => Some("FR")
    case "34" => Some("ES") case "36" => Some("HU") case "39" => Some("IT") case "40" => Some("RO")
    case "41" => Some("CH") case "43" => Some("AT") case "44" => Some("GB") case "45" => Some("DK")
    case "46" => Some("SE") case "47" => Some("NO") case "48" => Some("PL") case "49" => Some("DE")
    case "51" => Some("PE") case "52" => Some("MX") case "54" => Some("AR") case "55" => Some("BR")
    case "56" => Some("CL") case "57" => Some("CO") case "58" => Some("VE") case "60" => Some("MY")
    case "61" => Some("AU") case "62" => Some("ID") case "63" => Some("PH") case "64" => Some("NZ")
    case "65" => Some("SG") case "66" => Some("TH") case "81" => Some("JP") case "82" => Some("KR")
    case "84" => Some("VN") case "86" => Some("CN") case "90" => Some("TR") case "91" => Some("IN")
    case "92" => Some("PK") case "93" => Some("AF") case "94" => Some("LK") case "95" => Some("MM")
    case "98" => Some("IR")
    case _ => None
  }

  /** The characters of the pattern `[\s\-\(\)]`. */
  predicate IsSeparator(c: char) {
    IsWhitespace(c) || c == '-' || c == '(' || c == ')'
  }

  /** `phoneNumber.replace(/[\s\-\(\)]/g, "")`; `CleanRemovesSeparators`,
      `CleanAppend` and `CleanChar` say what it does. */
  function Clean(s: string): string
    decreases |s|
  {
    if s == [] then []
    else (if IsSeparator(s[0]) then [] else [s[0]]) + Clean(s[1..])
  }

  /** Cleaning works character by character: it distributes over
      concatenation, ... */
  lemma {:induction false} CleanAppend(a: string, b: string)
    ensures Clean(a + b) == Clean(a) + Clean(b)
    decreases |a|
  {
    if a == [] {
      assert a + b == b;
    } else {
      CleanAppend(a[1..], b);
      CleanCons(a[0], a[1..] + b);
      CleanCons(a[0], a[1..]);
      assert a + b == [a[0]] + (a[1..] + b);
      assert a == [a[0]] + a[1..];
    }
  }

  /** No separator remains, and a text without separators is left as it is. */
  lemma {:induction false} CleanRemovesSeparators(s: string)
    ensures forall i | 0 <= i < |Clean(s)| :: !IsSeparator(Clean(s)[i])
    ensures (forall i | 0 <= i < |s| :: !IsSeparator(s[i])) ==> Clean(s) == s
    decreases |s|
  {
    if s != [] {
      CleanRemovesSeparators(s[1..]);
      CleanCons(s[0], s[1..]);
      assert s == [s[0]] + s[1..];
    }
  }

  /** Cleaning one character off the front. */
  lemma CleanCons(c: char, s: string)
    ensures Clean([c] + s) == (if IsSeparator(c) then [] else [c]) + Clean(s)
  {
    assert ([c] + s)[0] == c && ([c] + s)[1..] == s;
  }

  /** ... drops a separator and keeps any other character. */
  lemma CleanChar(c: char)
    ensures IsSeparator(c) ==> Clean([c]) == []
    ensures !IsSeparator(c) ==> Clean([c]) == [c]
  {
  }

  /** A text of digits and separators cleans to digits. */
  lemma {:induction false} CleanDigitsAndSeparators(s: string)
    requires forall i | 0 <= i < |s| :: IsDigit(s[i]) || IsSeparator(s[i])
    ensures AllDigits(Clean(s))
    decreases |s|
  {
    if s != [] {
      CleanDigitsAndSeparators(s[1..]);
    }
  }

  /** The digits after the international prefix, if there is one. */
  function NumericPart(clean: string): Option<string> {
    if "+" <= clean then Some(clean[1..])
    else if "00" <= clean then Some(clean[2..])
    else None
  }

  /** `s.substring(0, k)`, which stops at the end of a shorter string. */
  function Prefix(s: string, k: nat): string {
    if k <= |s| then s[..k] else s
  }

  /** `getCountryCodeFromPhone`: the longest calling code (of at most three
      digits) the number starts with decides the country. */
  function GetCountryCodeFromPhone(phone: string): (r: Option<string>)
    ensures var n := NumericPart(Clean(phone));
      r.Some? <==> n.Some? && n.value != "" && exists k | 1 <= k <= 3 :: CallingCode(Prefix(n.value, k)).Some?
    ensures var n := NumericPart(Clean(phone));
      r.Some? ==> exists k | 1 <= k <= 3 ::
        && r == CallingCode(Prefix(n.value, k))
        && forall j | k < j <= 3 :: CallingCode(Prefix(n.value, j)).None?
  {
    var n := NumericPart(Clean(phone));
    if n.None? || n.value == "" then None
    else if CallingCode(Prefix(n.value, 3)).Some? then CallingCode(Prefix(n.value, 3))
    else if CallingCode(Prefix(n.value, 2)).Some? then CallingCode(Prefix(n.value, 2))
    else CallingCode(Prefix(n.value, 1))
  }

  /** A number written as `+` and digits is already clean. */
  lemma CleanPlusDigits(phone: string)
    requires phone != [] && phone[0] == '+' && AllDigits(phone[1..])
    ensures Clean(phone) == phone
    ensures NumericPart(Clean(phone)) == Some(phone[1..])
  {
    forall i | 0 <= i < |phone| ensures !IsSeparator(phone[i]) {
      if i > 0 {
        assert phone[i] == phone[1..][i - 1];
      }
    }
    CleanRemovesSeparators(phone);
  }

  /** No calling code in the table has three digits. */
  lemma NoThreeDigitCodes(code: string)
    requires |code| == 3
    ensures CallingCode(code).None?
  {
  }

  /** The documented example, generalised: every `+34` number is Spanish
      (`+34253521` gives `ES`). */
  lemma SpanishNumbers(rest: string)
    requires AllDigits(rest)
    ensures GetCountryCodeFromPhone("+34" + rest) == Some("ES")
  {
    var phone := "+34" + rest;
    assert AllDigits(phone[1..]) by {
      forall i | 0 <= i < |phone| - 1 ensures IsDigit(phone[1..][i]) {
        if i >= 2 {
          assert phone[1..][i] == rest[i - 2];
        }
      }
    }
    CleanPlusDigits(phone);
    var n := phone[1..];
    assert NumericPart(Clean(phone)) == Some(n);
    assert n != "";
    assert Prefix(n, 2) == "34";
    if |n| >= 3 {
      NoThreeDigitCodes(Prefix(n, 3));
      assert CallingCode(Prefix(n, 2)) == Some("ES");
    } else {
      assert Prefix(n, 3) == "34";
    }
  }

  /** Spaces, dashes and parentheses between the digits do not matter:
      every `+34` number is Spanish however it is formatted. */
  lemma SeparatedSpanishNumbers(rest: string)
    requires forall i | 0 <= i < |rest| :: IsDigit(rest[i]) || IsSeparator(rest[i])
    ensures GetCountryCodeFromPhone("+34" + rest) == Some("ES")
  {
    var digits := Clean(rest);
    CleanDigitsAndSeparators(rest);
    CleanAppend("+34", rest);
    CleanAppend("+34", digits);
    assert Clean("+34") == "+34";
    CleanRemovesSeparators(digits);
    SpanishNumbers(digits);
  }

  /** A formatted Spanish number. */
  lemma FormattedSpanishNumber()
    ensures GetCountryCodeFromPhone("+34 600-123-456") == Some("ES")
  {
    var rest := " 600-123-456";
    assert "+34 600-123-456" == "+34" + rest;
    SeparatedSpanishNumbers(rest);
  }

  /** A bare prefix with nothing after it has no country. */
  lemma BarePrefixHasNoCountry()
    ensures GetCountryCodeFromPhone("+") == None
    ensures GetCountryCodeFromPhone("00") == None
  {
    assert Clean("+") == "+";
    assert Clean("00") == "00";
  }

  /** At most two digits with no `+` never name a country: either there is no
      international prefix, or it is `00` with nothing after it. */
  lemma ShortDigitStringHasNoCountry(s: string)
    requires AllDigits(s) && |s| <= 2
    ensures GetCountryCodeFromPhone(s) == None
  {
    assert forall i | 0 <= i < |s| :: !IsSeparator(s[i]);
    CleanRemovesSeparators(s);
  }
}
