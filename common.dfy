/** Values shared by every part of the model: nullable references, the
    exceptions the adapter can raise, fixed-width integers and the few string
    operations of the .NET base library that the adapter relies on. */
module Common {

  /** A C# reference that may be null. */
  datatype Option<+T> = None | Some(value: T) {
    /** The `??` operator. */
    function GetOr(default: T): T {
      match this
      case Some(v) => v
      case None => default
    }
  }

  const Int32Min: int := -0x8000_0000
  const Int32Max: int := 0x7FFF_FFFF
  const Int64Min: int := -0x8000_0000_0000_0000
  const Int64Max: int := 0x7FFF_FFFF_FFFF_FFFF

  /** C# `int` and `long`. */
  type Int32 = x: int | Int32Min <= x <= Int32Max
  type Int64 = x: int | Int64Min <= x <= Int64Max

  /** Two's-complement wrap-around of an unchecked 32-bit or 64-bit result. */
  function Wrap32(x: int): (r: Int32)
    ensures (r - x) % 0x1_0000_0000 == 0
    ensures Int32Min <= x <= Int32Max ==> r == x
  {
    var m := x % 0x1_0000_0000;
    if m > Int32Max then m - 0x1_0000_0000 else m
  }

  function Wrap64(x: int): (r: Int64)
    ensures (r - x) % 0x1_0000_0000_0000_0000 == 0
    ensures Int64Min <= x <= Int64Max ==> r == x
  {
    var m := x % 0x1_0000_0000_0000_0000;
    if m > Int64Max then m - 0x1_0000_0000_0000_0000 else m
  }

  /** C# integer division, which truncates toward zero (Dafny's `/` is Euclidean). */
  function TruncDiv(a: int, b: int): (q: int)
    requires b != 0
    ensures 0 <= a && 0 < b ==> q == a / b
    ensures b * q == a - TruncRem(a, b)
  {
    if a >= 0 then (if b > 0 then a / b else -(a / -b))
    else (if b > 0 then -((-a) / b) else (-a) / (-b))
  }

  function TruncRem(a: int, b: int): int
    requires b != 0
  {
    if a >= 0 then a % (if b > 0 then b else -b)
    else -((-a) % (if b > 0 then b else -b))
  }

  /** A natural quotient times any part of its divisor stays within the dividend. */
  lemma QuotientScaled(n: nat, d: nat, k: nat)
    requires 1 <= k <= d
    ensures k * (n / d) <= n
  {
    var q := n / d;
    assert n == q * d + n % d;
    assert q * d == k * q + q * (d - k);
    assert q * (d - k) >= 0;
  }

  /** A `long` divided by anything but -1 (or a non-minimal `long` by -1) is a `long`. */
  lemma TruncDivFits(a: Int64, b: int)
    requires b != 0 && !(a == Int64Min && b == -1)
    ensures Int64Min <= TruncDiv(a, b) <= Int64Max
  {
    if a >= 0 { NonNegativeTruncDivFits(a, b); } else { NegativeTruncDivFits(a, b); }
  }

  lemma NonNegativeTruncDivFits(a: int, b: int)
    requires 0 <= a <= Int64Max && b != 0
    ensures Int64Min <= TruncDiv(a, b) <= Int64Max
  {
    var d: nat := if b > 0 then b else -b;
    QuotientFits(a, d, true);
    assert TruncDiv(a, b) == (if b > 0 then a / d else -(a / d));
  }

  lemma NegativeTruncDivFits(a: int, b: int)
    requires Int64Min <= a < 0 && b != 0 && !(a == Int64Min && b == -1)
    ensures Int64Min <= TruncDiv(a, b) <= Int64Max
  {
    var n: nat := -a;
    var d: nat := if b > 0 then b else -b;
    QuotientFits(n, d, b < 0);
    assert TruncDiv(a, b) == (if b > 0 then -(n / d) else n / d);
  }

  /** The magnitude of a truncated `long` quotient: at most the dividend's, and
      below 2^63 unless the dividend is long.MinValue and the divisor 1. */
  lemma QuotientFits(n: nat, d: nat, small: bool)
    requires d > 0 && n <= -Int64Min
    requires small ==> n <= Int64Max || d >= 2
    ensures n / d <= -Int64Min
    ensures small ==> n / d <= Int64Max
  {
    QuotientScaled(n, d, 1);
    if d >= 2 { QuotientScaled(n, d, 2); }
  }

  /** The `Status` of a `System.Net.WebException`. */
  datatype WebExceptionStatus =
    | ConnectFailure
    | ConnectionClosed
    | SecureChannelFailure
    | TrustFailure
    | NameResolutionFailure
    | ReceiveFailure
    | SendFailure
    | Timeout
    | ProtocolError
    | UnknownError

  /** The exceptions that reach, or are raised by, the adapter. */
  datatype Fault =
    | AuthenticationFailed(message: string)         // DownloadClientAuthenticationException
    | DownloadClientError(message: string)          // DownloadClientException
    | DownloadClientUnavailable(message: string)    // DownloadClientUnavailableException
    | Web(status: WebExceptionStatus, message: string) // System.Net.WebException, unwrapped
    | NullReference                                 // NullReferenceException
    | IndexOutOfRange                               // IndexOutOfRangeException
    | ArgumentNull                                  // ArgumentNullException (LINQ on a null source)
    | DivideByZero                                  // DivideByZeroException
    | Overflow                                      // OverflowException
    | Other(message: string)                        // anything else, carried through unchanged
  {
    /** `Exception.Message`. */
    function Message(): string {
      match this
      case AuthenticationFailed(m) => m
      case DownloadClientError(m) => m
      case DownloadClientUnavailable(m) => m
      case Web(_, m) => m
      case NullReference => "Object reference not set to an instance of an object."
      case IndexOutOfRange => "Index was outside the bounds of the array."
      case ArgumentNull => "Value cannot be null."
      case DivideByZero => "Attempted to divide by zero."
      case Overflow => "Arithmetic operation resulted in an overflow."
      case Other(m) => m
    }
  }

  /** A call that returns a value or throws. */
  datatype Outcome<+T> = Returned(value: T) | Threw(fault: Fault)

  /** FluentValidation's `ValidationFailure` as the adapter builds it
      (`NzbDroneValidationFailure` with its optional `DetailedDescription`). */
  datatype ValidationFailure = ValidationFailure(propertyName: string, message: string, detailedDescription: Option<string>)

  /** `char.IsWhiteSpace`: the Unicode space separators plus the line and
      paragraph separators and the control characters U+0009-U+000D, U+0085. */
  predicate IsWhiteSpace(c: char) {
    || c == ' ' || ('\t' <= c <= '\r') || c == '\U{0085}' || c == '\U{00A0}'
    || c == '\U{1680}' || ('\U{2000}' <= c <= '\U{200A}') || c == '\U{2028}' || c == '\U{2029}'
    || c == '\U{202F}' || c == '\U{205F}' || c == '\U{3000}'
  }

  /** `string.IsNullOrWhiteSpace`. */
  predicate IsNullOrWhiteSpace(s: Option<string>) {
    match s
    case None => true
    case Some(v) => forall i :: 0 <= i < |v| ==> IsWhiteSpace(v[i])
  }

  function UpperChar(c: char): char {
    if 'a' <= c <= 'z' then (c as int - 32) as char else c
  }

  /** `string.ToUpper`, restricted to the ASCII letters. */
  function ToUpper(s: string): (r: string)
    ensures |r| == |s|
    ensures forall i :: 0 <= i < |r| ==> !('a' <= r[i] <= 'z')
    ensures forall i :: 0 <= i < |s| && 'a' <= s[i] <= 'z' ==> r[i] as int == s[i] as int - ('a' as int - 'A' as int)
    ensures forall i :: 0 <= i < |s| && !('a' <= s[i] <= 'z') ==> r[i] == s[i]
  {
    seq(|s|, i requires 0 <= i < |s| => UpperChar(s[i]))
  }

  /** Upper-casing twice is upper-casing once. */
  lemma ToUpperIdempotent(s: string)
    ensures ToUpper(ToUpper(s)) == ToUpper(s)
  {
    var u := ToUpper(s);
    assert forall i :: 0 <= i < |u| ==> ToUpper(u)[i] == u[i];
  }

  /** Ordinal ordering of strings, character by character. A Dafny `char` is a
      Unicode scalar value, so this is .NET's UTF-16 code-unit order only below
      U+10000. */
  predicate StrLe(a: string, b: string) {
    a == [] || (b != [] && (a[0] < b[0] || (a[0] == b[0] && StrLe(a[1..], b[1..]))))
  }

  lemma {:induction false} StrLeTotal(a: string, b: string)
    ensures StrLe(a, b) || StrLe(b, a)
  {
    if a != [] && b != [] && a[0] == b[0] {
      StrLeTotal(a[1..], b[1..]);
    }
  }

  lemma {:induction false} StrLeTransitive(a: string, b: string, c: string)
    requires StrLe(a, b) && StrLe(b, c)
    ensures StrLe(a, c)
  {
    if a != [] && b != [] && c != [] && a[0] == b[0] == c[0] {
      StrLeTransitive(a[1..], b[1..], c[1..]);
    }
  }
}
