/** The parts of the .NET base library the client layer relies on: nullable
    values, the exceptions it throws or lets escape, whitespace classification
    (string.IsNullOrWhiteSpace), Math.Truncate on decimals and the text form of
    a Guid. */
module Runtime {

  /** A nullable value: None stands for C#'s null. */
  datatype Option<+T> = None | Some(value: T)

  /** What an argument exception is about: the parameter it names (its
      paramName) or, when the source gives none, the property its message
      names. */
  datatype Subject =
    | FailureMessageParam   // failureMessage of the Result constructor
    | StatusCodeParam       // statusCode of the ApiResult constructors
    | NameProperty          // Name of an Item
    | DescriptionProperty   // Description of an Item
    | PriceParam            // price of the Item constructor

  /** The exceptions the modelled code throws or lets through. */
  datatype Exception =
    | ArgumentException(subject: Subject)
    | ArgumentOutOfRangeException(subject: Subject)
    | InvalidOperationException
    | JsonException
    | NullReferenceException
    | OperationCanceledException

  /** The outcome of an expression that may throw: its value, or the
      exception that escapes from it. */
  datatype Outcome<+T> = Ok(value: T) | Throws(exception: Exception)

  /** Char.IsWhiteSpace: the Unicode space, line and paragraph separators and
      the control characters U+0009..U+000D and U+0085. */
  predicate IsWhiteSpace(c: char)
  {
    || c == ' ' || ('\t' <= c <= '\r') || c == '\U{0085}' || c == '\U{00A0}'
    || c == '\U{1680}' || ('\U{2000}' <= c <= '\U{200A}') || c == '\U{2028}'
    || c == '\U{2029}' || c == '\U{202F}' || c == '\U{205F}' || c == '\U{3000}'
  }

  /** string.IsNullOrWhiteSpace: null, empty, or whitespace characters only. */
  predicate IsNullOrWhiteSpace(s: Option<string>)
  {
    s.None? || forall i :: 0 <= i < |s.value| ==> IsWhiteSpace(s.value[i])
  }

  /** A string that starts with a non-whitespace character is not blank,
      whatever follows it. */
  lemma NotBlankWhenLeadIsVisible(lead: string, rest: string)
    requires |lead| > 0 && !IsWhiteSpace(lead[0])
    ensures !IsNullOrWhiteSpace(Some(lead + rest))
  {
    assert (lead + rest)[0] == lead[0];
  }

  /** A decimal holding a whole number. */
  predicate IsIntegral(x: real)
  {
    x.Floor as real == x
  }

  /** Math.Truncate(decimal): the integral part, rounding toward zero. */
  function Truncate(x: real): (t: real)
    ensures IsIntegral(t)
    ensures 0.0 <= x ==> 0.0 <= t <= x && x < t + 1.0
    ensures x < 0.0 ==> x <= t <= 0.0 && t - 1.0 < x
  {
    var n := if 0.0 <= x then x.Floor else -((-x).Floor);
    FloorOfWhole(n);
    n as real
  }

  /** A whole number is its own floor. */
  lemma FloorOfWhole(n: int)
    ensures (n as real).Floor == n
  {
  }

  /** Truncation leaves a whole number unchanged. */
  lemma TruncateIntegral(x: real)
    requires IsIntegral(x)
    ensures Truncate(x) == x
  {
    if x < 0.0 {
      assert (-x).Floor == -(x.Floor);
    }
  }

  /** 16 to the power w: the number of values `w` hexadecimal digits spell. */
  function Pow16(w: nat): (p: nat)
    ensures p > 0
  {
    if w == 0 then 1 else 16 * Pow16(w - 1)
  }

  /** A Guid, as the 128-bit number its 32 hexadecimal digits spell in the
      order Guid.ToString() prints them. */
  type Guid = g: nat | g < Pow16(32)

  /** A DateTimeOffset: a UTC instant in ticks and an offset in minutes. */
  datatype DateTimeOffset = DateTimeOffset(utcTicks: int, offsetMinutes: int)

  /** The lower-case hexadecimal digit for d. */
  function HexDigit(d: nat): (c: char)
    requires d < 16
    ensures d < 10 ==> '0' <= c <= '9'
    ensures 10 <= d ==> 'a' <= c <= 'f'
  {
    if d < 10 then ('0' as int + d) as char else ('a' as int + d - 10) as char
  }

  /** The lowest `width` hexadecimal digits of n, most significant first. */
  function Hex(n: nat, width: nat): (s: string)
    ensures |s| == width
  {
    if width == 0 then [] else Hex(n / 16, width - 1) + [HexDigit(n % 16)]
  }

  /** Distinct numbers below 16^width have distinct `width`-digit texts. */
  lemma {:induction false} HexInjective(n: nat, m: nat, width: nat)
    requires n < Pow16(width) && m < Pow16(width)
    requires Hex(n, width) == Hex(m, width)
    ensures n == m
  {
    if width > 0 {
      var s := Hex(n, width);
      assert Hex(n / 16, width - 1) == s[..width - 1] == Hex(m / 16, width - 1);
      assert HexDigit(n % 16) == s[width - 1] == HexDigit(m % 16);
      HexInjective(n / 16, m / 16, width - 1);
    }
  }

  /** Guid.ToString(): the "D" format, 8-4-4-4-12 lower-case digits. */
  function GuidText(g: Guid): (s: string)
    ensures |s| == 36
    ensures s[8] == s[13] == s[18] == s[23] == '-'
    ensures s[..8] + s[9..13] + s[14..18] + s[19..23] + s[24..] == Hex(g, 32)
  {
    var h := Hex(g, 32);
    var s := h[..8] + "-" + h[8..12] + "-" + h[12..16] + "-" + h[16..20] + "-" + h[20..];
    assert s[..8] == h[..8] && s[9..13] == h[8..12] && s[14..18] == h[12..16];
    assert s[19..23] == h[16..20] && s[24..] == h[20..];
    assert h == h[..8] + h[8..12] + h[12..16] + h[16..20] + h[20..];
    s
  }

  /** Two Guids with the same text are the same Guid. */
  lemma GuidTextInjective(a: Guid, b: Guid)
    requires GuidText(a) == GuidText(b)
    ensures a == b
  {
    HexInjective(a, b, 32);
  }
}
