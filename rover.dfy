/** The single-rover instruction interpreter `move_rover`: it turns a start
    `[x, y, heading]` and an instruction string over L, R and M into the end
    `[x, y, heading]`. Nothing here looks at plateau boundaries, terrain or
    other rovers: the program does not check any of them while moving. */
module Rover {
  import opened Outcomes
  import opened Directions
  import opened Items

  /** The interpreter's working state: `currPos` and the numeric `orientation`. */
  datatype State = State(x: int, y: int, heading: int)

  predicate IsInstruction(c: char) {
    c == 'L' || c == 'R' || c == 'M'
  }

  predicate AllInstructions(s: string) {
    forall i | 0 <= i < |s| :: IsInstruction(s[i])
  }

  /** How often `c` occurs in `s`. */
  function Count(s: string, c: char): nat {
    if s == [] then 0 else (if s[0] == c then 1 else 0) + Count(s[1..], c)
  }

  /** The wrap-around written out after every instruction: below 0 becomes 3,
      above 3 is taken modulo 4. It agrees with `mod 4` from -1 upwards,
      which covers every heading one turn can produce. */
  function Normalize(h: int): (r: int)
    ensures ValidHeading(r)
    ensures h >= -1 ==> r == h % 4
  {
    var h1 := if h < 0 then 3 else h;
    if h1 > 3 then h1 % 4 else h1
  }

  /** One pass of the loop body: L and R turn, M moves one cell along
      `convertToCoord(orientation)`, anything else raises. */
  function Step(st: State, c: char): (r: Result<State>)
    ensures r.Ok? ==> ValidHeading(r.value.heading)
    ensures ValidHeading(st.heading) ==> (r.Ok? <==> IsInstruction(c))
  {
    if c == 'L' then Ok(State(st.x, st.y, Normalize(st.heading - 1)))
    else if c == 'R' then Ok(State(st.x, st.y, Normalize(st.heading + 1)))
    else if c == 'M' then
      match ConvertToCoord(st.heading)
      case Fail => Fail
      case Ok((dx, dy)) => Ok(State(st.x + dx, st.y + dy, Normalize(st.heading)))
    else Fail
  }

  /** The instructions applied left to right; the first bad one aborts the
      whole run with no partial state. From a valid heading the run succeeds
      exactly when every character is L, R or M. */
  function Exec(st: State, s: string): (r: Result<State>)
    ensures ValidHeading(st.heading) ==> (r.Ok? <==> AllInstructions(s))
    ensures r.Ok? && s != [] ==> ValidHeading(r.value.heading)
    decreases |s|
  {
    if s == [] then Ok(st)
    else
      match Step(st, s[0])
      case Fail => Fail
      case Ok(next) =>
        var r := Exec(next, s[1..]);
        assert ValidHeading(st.heading) && AllInstructions(s) ==> AllInstructions(s[1..]) by {
          forall i | 0 <= i < |s| - 1 ensures s[1..][i] == s[i + 1] { }
        }
        r
  }

  /** Continue a run with more instructions, unless it already failed. */
  function Then(r: Result<State>, s: string): Result<State> {
    match r
    case Fail => Fail
    case Ok(st) => Exec(st, s)
  }

  /** `move_rover`'s meaning: the start must be a list and the instructions a
      non-empty string, the heading letter must be known, and the run must
      not meet a bad character; otherwise it raises. The end heading is
      reported as a letter again. */
  function Run(startPos: Item, instructions: Item): (r: Result<Triple>)
    ensures r.Ok? <==> startPos.StartItem? && instructions.TextItem? && instructions.text != []
                       && IsHeadingLetter(startPos.pos.dir) && AllInstructions(instructions.text)
    ensures r.Ok? ==> IsHeadingLetter(r.value.dir)
  {
    if !startPos.StartItem? || !instructions.TextItem? || instructions.text == [] then Fail
    else
      match ConvertToNum(startPos.pos.dir)
      case Fail => Fail
      case Ok(h) =>
        match Exec(State(startPos.pos.x, startPos.pos.y, h), instructions.text)
        case Fail => Fail
        case Ok(e) =>
          match ConvertToLetter(e.heading)
          case Fail => Fail
          case Ok(d) => Ok(Triple(e.x, e.y, d))
  }

  /** `move_rover` with its `for` loop over the instruction characters,
      updating `orientation` and `currPos` in place. */
  method MoveRover(startPos: Item, instructions: Item) returns (r: Result<Triple>)
    ensures r == Run(startPos, instructions)
  {
    if !startPos.StartItem? {
      return Fail;
    }
    if !instructions.TextItem? || instructions.text == [] {
      return Fail;
    }
    var x, y := startPos.pos.x, startPos.pos.y;
    var num := ConvertToNum(startPos.pos.dir);
    if num.Fail? {
      return Fail;
    }
    var orientation := num.value;
    var currPos := [x, y];
    var s := instructions.text;
    ghost var start := State(x, y, orientation);
    for k := 0 to |s|
      invariant |currPos| == 2 && ValidHeading(orientation)
      invariant Exec(start, s) == Exec(State(currPos[0], currPos[1], orientation), s[k..])
    {
      ghost var before := State(currPos[0], currPos[1], orientation);
      assert s[k..][0] == s[k] && s[k..][1..] == s[k + 1..];
      var c := s[k];
      if c == 'L' {
        orientation := orientation - 1;
      } else if c == 'R' {
        orientation := orientation + 1;
      } else if c == 'M' {
        var change := ConvertToCoord(orientation).value;
        currPos := currPos[0 := currPos[0] + change.0];
        currPos := currPos[1 := currPos[1] + change.1];
      } else {
        return Fail;
      }
      if orientation < 0 {
        orientation := 3;
      }
      if orientation > 3 {
        orientation := orientation % 4;
      }
      assert Step(before, c) == Ok(State(currPos[0], currPos[1], orientation));
    }
    assert s[|s|..] == [];
    var letter := ConvertToLetter(orientation).value;
    r := Ok(Triple(currPos[0], currPos[1], letter));
  }

  // ---------------------------------------------------------------------
  // Properties of the interpreter
  // ---------------------------------------------------------------------

  /** Running `s1 + s2` is running `s1` and then `s2` from where it ended;
      if `s1` fails, so does the whole. */
  lemma {:induction false} ExecAppend(st: State, s1: string, s2: string)
    ensures Exec(st, s1 + s2) == Then(Exec(st, s1), s2)
    decreases |s1|
  {
    if s1 == [] {
      assert s1 + s2 == s2;
    } else {
      assert (s1 + s2)[0] == s1[0] && (s1 + s2)[1..] == s1[1..] + s2;
      match Step(st, s1[0])
      case Fail =>
      case Ok(next) => ExecAppend(next, s1[1..], s2);
    }
  }

  lemma Mod4Shift(a: int, b: int)
    ensures (a % 4 + b) % 4 == (a + b) % 4
  {
    var q := a / 4;
    assert a == 4 * q + a % 4;
    assert a % 4 + b == (a + b) - 4 * q;
  }

  /** The final heading is the start heading plus the R count minus the
      L count, modulo 4; moves do not turn. */
  lemma {:induction false} ExecHeading(st: State, s: string)
    requires ValidHeading(st.heading)
    requires Exec(st, s).Ok?
    ensures Exec(st, s).value.heading == (st.heading + Count(s, 'R') - Count(s, 'L')) % 4
    decreases |s|
  {
    if s != [] {
      var next := Step(st, s[0]).value;
      ExecHeading(next, s[1..]);
      var dR := if s[0] == 'R' then 1 else 0;
      var dL := if s[0] == 'L' then 1 else 0;
      assert next.heading == (st.heading + dR - dL) % 4;
      Mod4Shift(st.heading + dR - dL, Count(s[1..], 'R') - Count(s[1..], 'L'));
    }
  }

  /** Instructions that only turn never fail and never move the rover: the
      position stays put and the heading ends at start + #R - #L modulo 4. */
  lemma {:induction false} TurnsKeepPosition(st: State, s: string)
    requires ValidHeading(st.heading)
    requires forall i | 0 <= i < |s| :: s[i] == 'L' || s[i] == 'R'
    ensures Exec(st, s) == Ok(State(st.x, st.y, (st.heading + Count(s, 'R') - Count(s, 'L')) % 4))
    decreases |s|
  {
    if s != [] {
      var next := Step(st, s[0]).value;
      assert next.x == st.x && next.y == st.y;
      TurnsKeepPosition(next, s[1..]);
      ExecHeading(st, s);
    }
  }

  /** Turns that cancel out modulo four leave the state exactly as it was. */
  lemma TurnsCancel(st: State, s: string)
    requires ValidHeading(st.heading)
    requires forall i | 0 <= i < |s| :: s[i] == 'L' || s[i] == 'R'
    requires (Count(s, 'R') - Count(s, 'L')) % 4 == 0
    ensures Exec(st, s) == Ok(st)
  {
    TurnsKeepPosition(st, s);
  }

  /** The turn counts of `LR`, `RL`, `RRRR` and `LLLL`. */
  lemma TurnCounts()
    ensures Count("LR", 'R') == 1 && Count("LR", 'L') == 1
    ensures Count("RL", 'R') == 1 && Count("RL", 'L') == 1
    ensures Count("RRRR", 'R') == 4 && Count("RRRR", 'L') == 0
    ensures Count("LLLL", 'R') == 0 && Count("LLLL", 'L') == 4
  {
    assert "LR"[1..] == "R" && "RL"[1..] == "L" && "R"[1..] == "" && "L"[1..] == "";
    assert "RRRR"[1..] == "RRR" && "RRR"[1..] == "RR" && "RR"[1..] == "R";
    assert "LLLL"[1..] == "LLL" && "LLL"[1..] == "LL" && "LL"[1..] == "L";
  }

  /** `LR`, `RL`, `RRRR` and `LLLL` change nothing. */
  lemma TurnIdentities(st: State)
    requires ValidHeading(st.heading)
    ensures Exec(st, "LR") == Ok(st) && Exec(st, "RL") == Ok(st)
    ensures Exec(st, "RRRR") == Ok(st) && Exec(st, "LLLL") == Ok(st)
  {
    TurnCounts();
    TurnsCancel(st, "LR");
    TurnsCancel(st, "RL");
    TurnsCancel(st, "RRRR");
    TurnsCancel(st, "LLLL");
  }

  /** One M moves one cell and keeps the heading: N along +x, S along -x,
      E along +y, W along -y. */
  lemma MoveStep(st: State)
    requires ValidHeading(st.heading)
    ensures Step(st, 'M').Ok?
    ensures var e := Step(st, 'M').value;
            e.heading == st.heading && Abs(e.x - st.x) + Abs(e.y - st.y) == 1
            && (st.heading == Ordinal(N) ==> e.x == st.x + 1 && e.y == st.y)
            && (st.heading == Ordinal(S) ==> e.x == st.x - 1 && e.y == st.y)
            && (st.heading == Ordinal(E) ==> e.x == st.x && e.y == st.y + 1)
            && (st.heading == Ordinal(W) ==> e.x == st.x && e.y == st.y - 1)
  {
  }

  /** A run ends no further from its start, summing the x and y distances,
      than there are M instructions. */
  lemma {:induction false} ExecDistance(st: State, s: string)
    requires ValidHeading(st.heading)
    requires Exec(st, s).Ok?
    ensures var e := Exec(st, s).value;
            Abs(e.x - st.x) + Abs(e.y - st.y) <= Count(s, 'M')
    decreases |s|
  {
    if s != [] {
      var next := Step(st, s[0]).value;
      ExecDistance(next, s[1..]);
      if s[0] == 'M' {
        MoveStep(st);
      }
    }
  }

  /** What `move_rover` returns: the reported letter is the start heading
      turned by #R - #L quarter turns, and the end cell is at most #M steps
      away from the start cell. */
  lemma RunResult(startPos: Item, instructions: Item)
    requires Run(startPos, instructions).Ok?
    ensures var t := Run(startPos, instructions).value;
            var s := instructions.text;
            var h := ConvertToNum(startPos.pos.dir).value;
            ConvertToNum(t.dir) == Ok((h + Count(s, 'R') - Count(s, 'L')) % 4)
            && Abs(t.x - startPos.pos.x) + Abs(t.y - startPos.pos.y) <= Count(s, 'M')
  {
    var s := instructions.text;
    var h := ConvertToNum(startPos.pos.dir).value;
    var st := State(startPos.pos.x, startPos.pos.y, h);
    ExecHeading(st, s);
    ExecDistance(st, s);
    NumLetterRoundTrip(Exec(st, s).value.heading);
  }
}
