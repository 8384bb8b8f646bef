/** The `Directions` enumeration and the three lookup tables of the rover
    program (`convertToNum`, `convertToCoord`, `convertToLetter`). */
module Directions {
  import opened Outcomes

  /** The compass points of the `Directions` IntEnum. */
  datatype Direction = N | E | S | W

  /** The integer an enum member stands for: N = 0, E = 1, S = 2, W = 3. */
  function Ordinal(d: Direction): (k: int)
    ensures 0 <= k <= 3
    ensures k == 0 <==> d == N
    ensures k == 1 <==> d == E
    ensures k == 2 <==> d == S
    ensures k == 3 <==> d == W
  {
    match d
    case N => 0
    case E => 1
    case S => 2
    case W => 3
  }

  /** A heading the tables accept. */
  predicate ValidHeading(k: int) {
    0 <= k <= 3
  }

  /** The four heading letters. */
  predicate IsHeadingLetter(s: string) {
    s == "N" || s == "E" || s == "S" || s == "W"
  }

  /** `convertToNum`: heading letter to its enum value; any other string raises. */
  function ConvertToNum(s: string): (r: Result<int>)
    ensures r.Ok? <==> IsHeadingLetter(s)
    ensures r.Ok? ==> ValidHeading(r.value)
    ensures s == "N" ==> r == Ok(Ordinal(N))
    ensures s == "E" ==> r == Ok(Ordinal(E))
    ensures s == "S" ==> r == Ok(Ordinal(S))
    ensures s == "W" ==> r == Ok(Ordinal(W))
  {
    if s == "N" then Ok(Ordinal(N))
    else if s == "S" then Ok(Ordinal(S))
    else if s == "E" then Ok(Ordinal(E))
    else if s == "W" then Ok(Ordinal(W))
    else Fail
  }

  /** `convertToLetter`: enum value to its heading letter; any other number raises. */
  function ConvertToLetter(k: int): (r: Result<string>)
    ensures r.Ok? <==> ValidHeading(k)
    ensures r.Ok? ==> IsHeadingLetter(r.value)
    ensures k == Ordinal(N) ==> r == Ok("N")
    ensures k == Ordinal(E) ==> r == Ok("E")
    ensures k == Ordinal(S) ==> r == Ok("S")
    ensures k == Ordinal(W) ==> r == Ok("W")
  {
    if k == Ordinal(N) then Ok("N")
    else if k == Ordinal(S) then Ok("S")
    else if k == Ordinal(E) then Ok("E")
    else if k == Ordinal(W) then Ok("W")
    else Fail
  }

  /** `convertToCoord`: the change of (x, y) that one move in heading `k` makes.
      The table is the program's own: N moves along +x, S along -x,
      E along +y and W along -y. Any other number raises. */
  function ConvertToCoord(k: int): (r: Result<(int, int)>)
    ensures r.Ok? <==> ValidHeading(k)
    ensures r.Ok? ==> Abs(r.value.0) + Abs(r.value.1) == 1
    ensures k == Ordinal(N) ==> r == Ok((1, 0))
    ensures k == Ordinal(S) ==> r == Ok((-1, 0))
    ensures k == Ordinal(E) ==> r == Ok((0, 1))
    ensures k == Ordinal(W) ==> r == Ok((0, -1))
  {
    if k == Ordinal(N) then Ok((1, 0))
    else if k == Ordinal(S) then Ok((-1, 0))
    else if k == Ordinal(E) then Ok((0, 1))
    else if k == Ordinal(W) then Ok((0, -1))
    else Fail
  }

  function Abs(n: int): (r: nat)
    ensures r == n || r == -n
  {
    if n < 0 then -n else n
  }

  /** Letter to number and back gives the letter again. */
  lemma LetterNumRoundTrip(s: string)
    requires IsHeadingLetter(s)
    ensures ConvertToNum(s).Ok?
    ensures ConvertToLetter(ConvertToNum(s).value) == Ok(s)
  {
  }

  /** Number to letter and back gives the number again, so `ConvertToNum`
      maps the four letters onto all of 0..3. */
  lemma NumLetterRoundTrip(k: int)
    requires ValidHeading(k)
    ensures ConvertToLetter(k).Ok?
    ensures ConvertToNum(ConvertToLetter(k).value) == Ok(k)
  {
  }

  /** `ConvertToNum` is one-to-one on the strings it accepts. */
  lemma ConvertToNumInjective(s: string, t: string)
    requires ConvertToNum(s).Ok?
    requires ConvertToNum(s) == ConvertToNum(t)
    ensures s == t
  {
  }

  /** Opposite headings (two apart) move in opposite directions, and
      neighbouring headings (one apart) move along different axes. */
  lemma CoordGeometry(k: int)
    requires ValidHeading(k)
    ensures var (dx, dy) := ConvertToCoord(k).value;
            var (ox, oy) := ConvertToCoord((k + 2) % 4).value;
            var (nx, ny) := ConvertToCoord((k + 1) % 4).value;
            ox == -dx && oy == -dy && dx * nx + dy * ny == 0
  {
  }
}
