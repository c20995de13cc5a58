/** Small shared vocabulary: optional values, results of calls that can throw,
    the outcome of an HTTP exchange, and the decimal rendering of a page number. */
module Common {

  /** A value that may be missing: an absent XML element, a null string. */
  datatype Option<+T> = None | Some(value: T)

  /** Why an operation that throws in the source did not complete. */
  datatype Error =
    | Transport            // no response at all (the HTTP client threw)
    | HttpStatus(code: int) // EnsureSuccessStatusCode threw on this status
    | Malformed            // the response body could not be read as expected
    | EmbeddingFailed      // the embedding generator threw

  /** The result of an operation that either returns a value or throws. */
  datatype Result<+T> = Ok(value: T) | Err(error: Error)

  /** What an HTTP exchange produced: a status code, or no response. */
  datatype HttpOutcome = Unreachable | Responded(status: int)

  const NotFound: int := 404
  const Conflict: int := 409

  /** HttpResponseMessage.IsSuccessStatusCode, the test behind EnsureSuccessStatusCode. */
  predicate IsSuccessStatus(status: int) {
    200 <= status <= 299
  }

  function DigitChar(d: nat): (c: char)
    requires d < 10
    ensures '0' <= c <= '9'
  {
    ('0' as int + d) as char
  }

  predicate IsDigits(s: string) {
    forall i :: 0 <= i < |s| ==> '0' <= s[i] <= '9'
  }

  /** The decimal text of a non-negative int, without leading zeros, as string
      concatenation with an int renders it. */
  function NatToString(n: nat): string
  {
    if n < 10 then [DigitChar(n)] else NatToString(n / 10) + [DigitChar(n % 10)]
  }

  lemma {:induction false} NatToStringDigits(n: nat)
    ensures |NatToString(n)| >= 1 && IsDigits(NatToString(n))
  {
    if n >= 10 {
      NatToStringDigits(n / 10);
    }
  }

  /** Reads a string of decimal digits back as a number. */
  function ParseDigits(s: string): nat
    requires IsDigits(s)
  {
    if s == [] then 0 else ParseDigits(s[..|s| - 1]) * 10 + (s[|s| - 1] as int - '0' as int)
  }

  /** The decimal rendering loses nothing: reading it back gives the number. */
  lemma {:induction false} ParseNatToString(n: nat)
    ensures IsDigits(NatToString(n)) && ParseDigits(NatToString(n)) == n
  {
    NatToStringDigits(n);
    if n >= 10 {
      var s := NatToString(n);
      assert s[..|s| - 1] == NatToString(n / 10);
      ParseNatToString(n / 10);
    }
  }

  /** Distinct numbers have distinct renderings. */
  lemma NatToStringInjective(m: nat, n: nat)
    requires NatToString(m) == NatToString(n)
    ensures m == n
  {
    ParseNatToString(m);
    ParseNatToString(n);
  }
}
