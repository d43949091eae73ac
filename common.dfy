/** Values shared by the server handlers and the client components. */
module Common {

  datatype Option<+T> = None | Some(value: T)

  /** The role carried by an already-authenticated caller. */
  datatype Role = Student | Teacher | Admin

  /** An authenticated caller, as the token middleware resolves it. */
  datatype Caller = Caller(id: nat, role: Role)

  /** Why a handler refused a request. */
  datatype ErrorKind =
    | Invalid        // malformed or incomplete input
    | Forbidden      // the caller's role or ownership does not allow it
    | NotFound       // the referenced row does not exist (or is hidden from the caller)
    | LimitReached   // the quiz retry budget is used up
    | Malformed      // a JSON payload that cannot be used (parse error, missing array)
    | Duplicate      // the (user, course) enrollment already exists

  /** A handler's answer: a value, or the reason together with the HTTP status the server sends. */
  datatype Outcome<+T> = Ok(value: T) | Err(kind: ErrorKind, status: int)

  /** Math.round(a / n * 100) for a >= 0 and n > 0, computed exactly as floor(100a/n + 1/2). */
  function RoundPercent(a: nat, n: nat): (r: nat)
    requires n > 0
    ensures 2 * n * r <= 200 * a + n < 2 * n * (r + 1)
    ensures a <= n ==> r <= 100
    ensures a == n ==> r == 100
    ensures a == 0 ==> r == 0
  {
    RoundPercentFacts(a, n);
    (200 * a + n) / (2 * n)
  }

  lemma RoundPercentFacts(a: nat, n: nat)
    requires n > 0
    ensures 2 * n * ((200 * a + n) / (2 * n)) <= 200 * a + n < 2 * n * ((200 * a + n) / (2 * n) + 1)
    ensures a <= n ==> (200 * a + n) / (2 * n) <= 100
    ensures a == n ==> (200 * a + n) / (2 * n) == 100
    ensures a == 0 ==> (200 * a + n) / (2 * n) == 0
  {
    DivBounds(200 * a + n, 2 * n);
    if a <= n {
      DivMonotone(200 * a + n, 200 * n + n, 2 * n);
      assert (200 * n + n) / (2 * n) == 100 by {
        DivUnique(200 * n + n, 2 * n, 100);
      }
    }
    if a == 0 {
      DivUnique(n, 2 * n, 0);
    }
  }

  lemma DivBounds(x: nat, d: nat)
    requires d > 0
    ensures d * (x / d) <= x < d * (x / d + 1)
  {
  }

  lemma DivMonotone(x: nat, y: nat, d: nat)
    requires d > 0 && x <= y
    ensures x / d <= y / d
  {
    DivBounds(x, d);
    DivBounds(y, d);
  }

  lemma DivUnique(x: nat, d: nat, q: nat)
    requires d > 0 && d * q <= x < d * (q + 1)
    ensures x / d == q
  {
    DivBounds(x, d);
  }
}
