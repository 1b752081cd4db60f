/**
 * The three-level quality setting shared by materials (MaterialQuality) and splatters
 * (SplatterQuality): the same enum, the same case-insensitive parsing with LOW as the
 * fallback, and the same names.
 */
module Quality {
  datatype Quality = Low | Medium | High

  /** The enum value: LOW = 0, MEDIUM = 1, HIGH = 2. */
  function Rank(q: Quality): (r: int)
    ensures 0 <= r <= 2
    ensures q == Low <==> r == 0
    ensures q == High <==> r == 2
  {
    match q
    case Low => 0
    case Medium => 1
    case High => 2
  }

  /** ASCII upper-casing of one character. */
  function Upper(c: char): char {
    if 'a' <= c <= 'z' then (c as int - 'a' as int + 'A' as int) as char else c
  }

  /** QString::toUpper, on ASCII letters. */
  function ToUpper(s: string): (r: string)
    ensures |r| == |s| && forall i :: 0 <= i < |s| ==> r[i] == Upper(s[i])
  {
    seq(|s|, i requires 0 <= i < |s| => Upper(s[i]))
  }

  /** fromString: the upper-cased name is compared with LOW, MEDIUM and HIGH; anything else is LOW. */
  function FromString(name: string): (q: Quality)
    ensures q == High <==> ToUpper(name) == "HIGH"
    ensures q == Medium <==> ToUpper(name) == "MEDIUM"
    ensures q == Low <==> ToUpper(name) != "HIGH" && ToUpper(name) != "MEDIUM"
  {
    var up := ToUpper(name);
    if up == "LOW" then Low
    else if up == "MEDIUM" then Medium
    else if up == "HIGH" then High
    else Low
  }

  function ToString(q: Quality): (s: string)
    ensures |s| >= 3
  {
    match q
    case High => "High"
    case Medium => "Medium"
    case Low => "Low"
  }

  /** Parsing a printed quality gives the quality back. */
  lemma RoundTrip(q: Quality)
    ensures FromString(ToString(q)) == q
  {
    match q
    case High => assert ToUpper("High") == "HIGH";
    case Medium => assert ToUpper("Medium") == "MEDIUM";
    case Low => assert ToUpper("Low") == "LOW";
  }

  /** Upper-casing is idempotent. */
  lemma ToUpperIdempotent(s: string)
    ensures ToUpper(ToUpper(s)) == ToUpper(s)
  {
  }

  /** Parsing ignores case: names that agree once upper-cased parse alike. */
  lemma FromStringIgnoresCase(a: string, b: string)
    requires ToUpper(a) == ToUpper(b)
    ensures FromString(a) == FromString(b)
  {
  }
}
