/** Values shared by every component of the application model: optional values,
    the three routes of the router, toast notifications, the session the auth
    backend reports, and the decimal rendering of a millisecond timestamp. */
module Common {

  datatype Option<+T> = None | Some(value: T)

  /** The router's three destinations: "/", "/auth" and "/dashboard". */
  datatype Route = Landing | AuthRoute | DashboardRoute

  function Path(r: Route): (p: string)
    ensures |p| >= 1 && p[0] == '/'
    ensures r == Landing <==> p == "/"
  {
    match r
    case Landing => "/"
    case AuthRoute => "/auth"
    case DashboardRoute => "/dashboard"
  }

  /** A transient notification: `toast.success(msg)` or `toast.error(msg)`. */
  datatype Toast = Info(msg: string) | Error(msg: string)

  /** The authenticated user carried by a session. */
  datatype User = User(id: string, email: string)

  /** A session as delivered by `getSession` or `onAuthStateChange`. */
  datatype Session = Session(user: User, accessToken: string)

  /** A session observation: `None` stands for the backend's `null` session. */
  type Observation = Option<Session>

  /** The UTF-16 code units of one character: a character outside the Basic
      Multilingual Plane is a surrogate pair, every other character one unit. */
  function Utf16Units(c: char): (n: nat)
    ensures n == 1 || n == 2
    ensures n == 2 <==> c >= '\U{10000}'
  {
    if c >= '\U{10000}' then 2 else 1
  }

  /** JavaScript's `.length` of a string: its count of UTF-16 code units,
      which is also what zod's `.min`/`.max` and an input's `maxLength` count. */
  function Utf16Length(s: string): (n: nat)
    ensures |s| <= n <= 2 * |s|
    ensures s != [] ==> n >= Utf16Units(s[0])
    decreases |s|
  {
    if s == [] then 0 else Utf16Units(s[0]) + Utf16Length(s[1..])
  }

  /** `.length` agrees with the character count exactly when no character
      lies outside the Basic Multilingual Plane. */
  lemma {:induction false} Utf16LengthBmp(s: string)
    ensures Utf16Length(s) == |s| <==> forall i :: 0 <= i < |s| ==> s[i] < '\U{10000}'
    decreases |s|
  {
    if s != [] {
      Utf16LengthBmp(s[1..]);
      if forall i :: 0 <= i < |s| ==> s[i] < '\U{10000}' {
        assert forall i :: 0 <= i < |s[1..]| ==> s[1..][i] == s[i + 1];
      } else if s[0] < '\U{10000}' {
        var i :| 0 <= i < |s| && s[i] >= '\U{10000}';
        assert s[1..][i - 1] == s[i];
      }
    }
  }

  /** The longest prefix of `s` of at most `n` UTF-16 code units that does
      not split a surrogate pair. */
  function Utf16Prefix(s: string, n: nat): (r: string)
    ensures |r| <= |s| && r == s[..|r|]
    ensures Utf16Length(r) <= n
    ensures Utf16Length(s) <= n ==> r == s
    ensures |r| < |s| ==> Utf16Length(r) + Utf16Units(s[|r|]) > n
    decreases |s|
  {
    if s == [] || Utf16Units(s[0]) > n then []
    else
      var rest := Utf16Prefix(s[1..], n - Utf16Units(s[0]));
      var r := [s[0]] + rest;
      assert r[1..] == rest;
      assert |r| < |s| ==> s[|r|] == s[1..][|rest|];
      r
  }

  predicate IsDigit(c: char) { '0' <= c <= '9' }

  function DigitChar(d: nat): (c: char)
    requires d < 10
    ensures IsDigit(c)
  {
    ['0','1','2','3','4','5','6','7','8','9'][d]
  }

  /** JavaScript's rendering of a non-negative integer below 10^21, such as
      `Date.now()`: decimal digits, most significant first, without leading
      zeros. */
  function Decimal(n: nat): (s: string)
    ensures 1 <= |s|
    ensures forall i :: 0 <= i < |s| ==> IsDigit(s[i])
    ensures n >= 10 ==> s[0] != '0'
    decreases n
  {
    if n < 10 then [DigitChar(n)] else Decimal(n / 10) + [DigitChar(n % 10)]
  }

  /** The decimal string left-padded with '0' to at least `width` characters
      (`String(n).padStart(width, "0")`). */
  function PadDecimal(n: nat, width: nat): (s: string)
    ensures |s| == if |Decimal(n)| < width then width else |Decimal(n)|
    ensures forall i :: 0 <= i < |s| ==> IsDigit(s[i])
  {
    var d := Decimal(n);
    if |d| < width then seq(width - |d|, _ => '0') + d else d
  }

  function DigitValue(c: char): (d: nat)
    requires IsDigit(c)
    ensures d < 10
  {
    c as int - '0' as int
  }

  predicate AllDigits(s: string) {
    forall i :: 0 <= i < |s| ==> IsDigit(s[i])
  }

  /** The number a string of decimal digits denotes (the empty string denotes 0). */
  function DecimalValue(s: string): nat
    requires AllDigits(s)
    decreases |s|
  {
    if s == [] then 0 else 10 * DecimalValue(s[..|s| - 1]) + DigitValue(s[|s| - 1])
  }

  lemma DigitRoundTrip(d: nat)
    requires d < 10
    ensures DigitValue(DigitChar(d)) == d
  {
  }

  /** Reading back the rendering of `n` yields `n`. */
  lemma {:induction false} DecimalRoundTrip(n: nat)
    ensures DecimalValue(Decimal(n)) == n
    decreases n
  {
    var s := Decimal(n);
    if n < 10 {
      DigitRoundTrip(n);
      assert s[..|s| - 1] == [];
    } else {
      DecimalRoundTrip(n / 10);
      DigitRoundTrip(n % 10);
      assert s[..|s| - 1] == Decimal(n / 10);
    }
  }

  /** Leading zeros do not change the number a digit string denotes. */
  lemma {:induction false} LeadingZerosValue(k: nat, s: string)
    requires AllDigits(s)
    ensures AllDigits(seq(k, _ => '0') + s)
    ensures DecimalValue(seq(k, _ => '0') + s) == DecimalValue(s)
    decreases |s|, k
  {
    var z := seq(k, _ => '0');
    var t := z + s;
    forall i | 0 <= i < |t| ensures IsDigit(t[i]) {
      if i < k { assert t[i] == z[i]; } else { assert t[i] == s[i - k]; }
    }
    if s == [] {
      if k > 0 {
        assert t[..|t| - 1] == seq(k - 1, _ => '0') + [];
        LeadingZerosValue(k - 1, []);
      } else {
        assert t == [];
      }
    } else {
      assert t[..|t| - 1] == z + s[..|s| - 1];
      LeadingZerosValue(k, s[..|s| - 1]);
    }
  }

  /** Padding is undone by reading the digits back, so it is injective. */
  lemma PadDecimalRoundTrip(n: nat, width: nat)
    ensures DecimalValue(PadDecimal(n, width)) == n
  {
    DecimalRoundTrip(n);
    var d := Decimal(n);
    if |d| < width {
      LeadingZerosValue(width - |d|, d);
      assert PadDecimal(n, width) == seq(width - |d|, _ => '0') + d;
    } else {
      assert PadDecimal(n, width) == d;
    }
  }

  /** Numbers below 10^k print with at most k digits. */
  lemma {:induction false} DecimalLength(n: nat, k: nat)
    requires 1 <= k && n < Pow10(k)
    ensures |Decimal(n)| <= k
    decreases n
  {
    if n >= 10 {
      assert k >= 2 by { Pow10Small(k); }
      Pow10Step(k - 1);
      DivBound(n, Pow10(k - 1));
      DecimalLength(n / 10, k - 1);
    }
  }

  function Pow10(k: nat): (p: nat)
    ensures p >= 1
  {
    if k == 0 then 1 else 10 * Pow10(k - 1)
  }

  lemma Pow10Step(k: nat)
    ensures Pow10(k + 1) == 10 * Pow10(k)
  {
  }

  lemma {:induction false} Pow10Small(k: nat)
    ensures k <= 1 ==> Pow10(k) <= 10
  {
    if k == 1 { assert Pow10(1) == 10 * Pow10(0); }
  }

  lemma DivBound(n: nat, p: nat)
    requires p >= 1 && n < 10 * p
    ensures n / 10 < p
  {
  }
}
