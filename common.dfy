/** Shared vocabulary of the model: optional values, identifiers, the HTTP status
    codes the controllers answer with, and the decimal rendering JavaScript uses
    when a number is interpolated into a template string. */
module Common {

  datatype Option<T> = None | Some(value: T)

  /** Document ids and caller ids are opaque strings (ObjectId.toString()). */
  type Id = string

  // HTTP status codes used by the controllers
  const OK: nat := 200
  const CREATED: nat := 201
  const BAD_REQUEST: nat := 400
  const UNAUTHORIZED: nat := 401
  const FORBIDDEN: nat := 403
  const NOT_FOUND: nat := 404
  const SERVER_ERROR: nat := 500

  /** A JavaScript value is "falsy" as a string field when it is absent or empty. */
  predicate Blank(s: string) {
    s == ""
  }

  /** bcrypt.compare(entered, stored): whether an entered password matches the
      stored one. The hash itself is outside the model. */
  type PasswordMatch = (string, string) -> bool

  predicate IsDigit(c: char) {
    '0' <= c <= '9'
  }

  predicate AllDigits(s: string) {
    forall i :: 0 <= i < |s| ==> IsDigit(s[i])
  }

  function DigitChar(d: nat): (c: char)
    requires d < 10
    ensures IsDigit(c) && c as int - '0' as int == d
  {
    ('0' as int + d) as char
  }

  /** Decimal rendering of a natural number without leading zeros, as
      `${Date.now()}` renders a millisecond timestamp. */
  function NatToString(n: nat): (s: string)
    ensures |s| >= 1 && AllDigits(s)
    ensures s[0] == '0' <==> n == 0
    decreases n
  {
    if n < 10 then [DigitChar(n)] else NatToString(n / 10) + [DigitChar(n % 10)]
  }

  /** Reading a string of decimal digits back as a number. */
  function ParseNat(s: string): (n: nat)
    requires AllDigits(s)
    decreases |s|
  {
    if s == [] then 0 else 10 * ParseNat(s[..|s| - 1]) + (s[|s| - 1] as int - '0' as int)
  }

  /** Rendering then reading gives the number back. */
  lemma {:induction false} ParseNatToString(n: nat)
    ensures ParseNat(NatToString(n)) == n
    decreases n
  {
    var s := NatToString(n);
    if n >= 10 {
      ParseNatToString(n / 10);
      assert s[..|s| - 1] == NatToString(n / 10);
    }
  }

  /** Distinct numbers have distinct renderings. */
  lemma NatToStringInjective(a: nat, b: nat)
    requires NatToString(a) == NatToString(b)
    ensures a == b
  {
    ParseNatToString(a);
    ParseNatToString(b);
  }
}
