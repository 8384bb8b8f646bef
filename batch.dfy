/** The pair loop of the rover program's constructor: it walks the parsed
    items two at a time as (start, instructions), refuses a start cell that
    an earlier rover already started from, runs `move_rover` on each rover
    and records its end as a line `"x y D"`. Any failure ends the whole run. */
module Batch {
  import opened Outcomes
  import opened Directions
  import opened Items
  import opened Text
  import opened Rover
  import opened Parser

  /** `" ".join(str(c) for c in endPos)` for an end `[x, y, letter]`. */
  function Format(t: Triple): (r: string)
    ensures r == Join([IntToString(t.x), IntToString(t.y), t.dir], ' ')
  {
    var xs, ys := IntToString(t.x), IntToString(t.y);
    assert Join([ys, t.dir], ' ') == ys + [' '] + t.dir by {
      assert [ys, t.dir][1..] == [t.dir];
    }
    assert Join([xs, ys, t.dir], ' ') == xs + [' '] + Join([ys, t.dir], ' ') by {
      assert [xs, ys, t.dir][1..] == [ys, t.dir];
    }
    xs + " " + ys + " " + t.dir
  }

  /** The cell `(x, y)` the duplicate check compares. */
  function Key(t: Triple): (int, int) {
    (t.x, t.y)
  }

  /** Put finished lines in front of the lines still to come. */
  function PrependAll(done: seq<string>, r: Result<seq<string>>): Result<seq<string>> {
    match r
    case Fail => Fail
    case Ok(rest) => Ok(done + rest)
  }

  /** The loop from its current pair on, with `seen` the start cells of the
      pairs already done. A start item that is a string fails too: Python
      indexes into it for the duplicate check, and `move_rover` then raises. */
  function BatchFrom(items: seq<Item>, seen: set<(int, int)>): (r: Result<seq<string>>)
    ensures r.Ok? ==> |r.value| == |items| / 2
    decreases |items|
  {
    if |items| < 2 then Ok([])
    else
      var startPos, instructions := items[0], items[1];
      if startPos.StartItem? && Key(startPos.pos) in seen then Fail
      else
        match Run(startPos, instructions)
        case Fail => Fail
        case Ok(endPos) =>
          PrependAll([Format(endPos)], BatchFrom(items[2..], seen + {Key(startPos.pos)}))
  }

  /** The whole loop, starting with no start cells seen. */
  function Batch(items: seq<Item>): (r: Result<seq<string>>)
    ensures r.Ok? ==> |r.value| == |items| / 2
  {
    BatchFrom(items, {})
  }

  /** The loop as the constructor runs it: counter `i` on the instruction
      item of each pair, a set `allStartPos` and a list `output` that grow. */
  method RunBatch(lines: seq<Item>) returns (r: Result<seq<string>>)
    ensures r == Batch(lines)
  {
    var allStartPos: set<(int, int)> := {};
    var output: seq<string> := [];
    var i := 1;
    match BatchFrom(lines, allStartPos) {
      case Fail =>
      case Ok(all) => assert [] + all == all;
    }
    while i < |lines|
      invariant 1 <= i <= |lines| + 1
      invariant Batch(lines) == PrependAll(output, BatchFrom(lines[i - 1..], allStartPos))
    {
      var startPos := lines[i - 1];
      var instructions := lines[i];
      if startPos.StartItem? && Key(startPos.pos) in allStartPos {
        BatchLoopFail(lines, i, output, allStartPos);
        return Fail;
      }
      ghost var seen := allStartPos;
      if startPos.StartItem? {
        allStartPos := allStartPos + {Key(startPos.pos)};
      }
      var endPos := MoveRover(startPos, instructions);
      if endPos.Fail? {
        BatchLoopFail(lines, i, output, seen);
        return Fail;
      }
      BatchLoopStep(lines, i, output, seen);
      output := output + [Format(endPos.value)];
      i := i + 2;
    }
    r := Ok(output);
    assert output + [] == output;
  }

  /** A pair whose start was seen before, or whose move fails, fails the run. */
  lemma BatchLoopFail(lines: seq<Item>, i: nat, output: seq<string>, seen: set<(int, int)>)
    requires 1 <= i < |lines|
    requires (lines[i - 1].StartItem? && Key(lines[i - 1].pos) in seen) || Run(lines[i - 1], lines[i]).Fail?
    requires Batch(lines) == PrependAll(output, BatchFrom(lines[i - 1..], seen))
    ensures Batch(lines) == Fail
  {
    var rest := lines[i - 1..];
    assert rest[0] == lines[i - 1] && rest[1] == lines[i];
  }

  /** A pair with a fresh start and a successful move appends its line and
      records its start cell. */
  lemma BatchLoopStep(lines: seq<Item>, i: nat, output: seq<string>, seen: set<(int, int)>)
    requires 1 <= i < |lines|
    requires lines[i - 1].StartItem? && Key(lines[i - 1].pos) !in seen && Run(lines[i - 1], lines[i]).Ok?
    requires Batch(lines) == PrependAll(output, BatchFrom(lines[i - 1..], seen))
    ensures Batch(lines) == PrependAll(output + [Format(Run(lines[i - 1], lines[i]).value)],
                                       BatchFrom(lines[i + 1..], seen + {Key(lines[i - 1].pos)}))
  {
    var rest := lines[i - 1..];
    assert rest[0] == lines[i - 1] && rest[1] == lines[i] && rest[2..] == lines[i + 1..];
    BatchFromStep(rest, seen);
    PrependAllShift(output, Format(Run(lines[i - 1], lines[i]).value), BatchFrom(lines[i + 1..], seen + {Key(lines[i - 1].pos)}));
  }

  /** The program's run without the file I/O: parse the lines, then run the
      pair loop; failing to parse fails the run. */
  function Simulate(lines: seq<string>): (r: Result<seq<string>>)
    ensures ParseInputSpec(lines).Fail? ==> r.Fail?
    ensures r.Ok? ==> |r.value| == CountNonBlank(lines) / 2
  {
    match ParseInputSpec(lines)
    case Fail => Fail
    case Ok(items) => Batch(items)
  }

  /** The constructor: `parse_input` followed by the pair loop. The output
      file is left out; the lines that would be written are returned. */
  method Instantiate(lines: seq<string>) returns (r: Result<seq<string>>)
    ensures r == Simulate(lines)
  {
    var parsed := ParseInput(lines);
    if parsed.Fail? {
      return Fail;
    }
    r := RunBatch(parsed.value);
  }

  // ---------------------------------------------------------------------
  // Properties of the pair loop
  // ---------------------------------------------------------------------

  /** Every move of pair `j` (start `items[2j]`, instructions `items[2j+1]`)
      succeeds. */
  predicate AllRunsOk(items: seq<Item>) {
    AllPairs(items, RunOk)
  }

  /** The move of one pair succeeds. */
  predicate RunOk(startPos: Item, instructions: Item) {
    Run(startPos, instructions).Ok?
  }

  /** Every pair `(items[2j], items[2j+1])` satisfies `ok`. */
  predicate AllPairs<T>(items: seq<T>, ok: (T, T) -> bool) {
    forall j | 0 <= j < |items| / 2 :: ok(items[2 * j], items[2 * j + 1])
  }

  /** No two pairs start from the same cell. */
  predicate DistinctStarts(items: seq<Item>) {
    forall j, k | 0 <= j < k < |items| / 2 && items[2 * j].StartItem? && items[2 * k].StartItem? ::
      Key(items[2 * j].pos) != Key(items[2 * k].pos)
  }

  /** No pair starts from a cell in `seen`. */
  predicate StartsAvoid(items: seq<Item>, seen: set<(int, int)>) {
    forall j | 0 <= j < |items| / 2 && items[2 * j].StartItem? :: Key(items[2 * j].pos) !in seen
  }

  /** The expected output: the formatted end of each pair, in input order. */
  function Outputs(items: seq<Item>): (r: seq<string>)
    requires AllRunsOk(items)
    ensures |r| == |items| / 2
    decreases |items|
  {
    if |items| < 2 then []
    else
      AllRunsOkShift(items);
      [Format(Run(items[0], items[1]).value)] + Outputs(items[2..])
  }

  /** Pair `j` of `items[2..]` is pair `j + 1` of `items`. */
  lemma PairShift<T>(items: seq<T>, j: int)
    requires |items| >= 2 && 0 <= j < |items[2..]| / 2
    ensures items[2..][2 * j] == items[2 * (j + 1)] && items[2..][2 * j + 1] == items[2 * (j + 1) + 1]
  {
  }

  /** Every pair satisfies `ok` exactly when the first does and every later one does. */
  lemma AllPairsShift<T>(items: seq<T>, ok: (T, T) -> bool)
    requires |items| >= 2
    ensures AllPairs(items, ok) <==> ok(items[0], items[1]) && AllPairs(items[2..], ok)
  {
    var tail := items[2..];
    assert |tail| / 2 == |items| / 2 - 1;
    forall j | 0 <= j < |tail| / 2 { PairShift(items, j); }
    assert items[2 * 0] == items[0] && items[2 * 0 + 1] == items[1];
    if ok(items[0], items[1]) && AllPairs(tail, ok) {
      forall j | 0 <= j < |items| / 2 ensures ok(items[2 * j], items[2 * j + 1]) {
        if j > 0 { PairShift(items, j - 1); }
      }
    }
  }

  /** Every move succeeds exactly when the first does and every later one does. */
  lemma AllRunsOkShift(items: seq<Item>)
    requires |items| >= 2
    ensures AllRunsOk(items) <==> Run(items[0], items[1]).Ok? && AllRunsOk(items[2..])
  {
    AllPairsShift(items, RunOk);
  }

  /** The starts avoid `seen` and each other exactly when the first start is
      not in `seen` and the later starts avoid `seen` plus the first one and
      each other. */
  lemma StartsShift(items: seq<Item>, seen: set<(int, int)>)
    requires |items| >= 2 && items[0].StartItem?
    ensures DistinctStarts(items) && StartsAvoid(items, seen)
            <==> Key(items[0].pos) !in seen && DistinctStarts(items[2..])
                 && StartsAvoid(items[2..], seen + {Key(items[0].pos)})
  {
    var tail := items[2..];
    var seen' := seen + {Key(items[0].pos)};
    assert |tail| / 2 == |items| / 2 - 1;
    assert items[2 * 0] == items[0];
    if DistinctStarts(items) && StartsAvoid(items, seen) {
      forall j | 0 <= j < |tail| / 2 && tail[2 * j].StartItem?
        ensures Key(tail[2 * j].pos) !in seen'
      {
        PairShift(items, j);
      }
      forall j, k | 0 <= j < k < |tail| / 2 && tail[2 * j].StartItem? && tail[2 * k].StartItem?
        ensures Key(tail[2 * j].pos) != Key(tail[2 * k].pos)
      {
        PairShift(items, j);
        PairShift(items, k);
      }
    }
    if Key(items[0].pos) !in seen && DistinctStarts(tail) && StartsAvoid(tail, seen') {
      forall j | 0 <= j < |items| / 2 && items[2 * j].StartItem?
        ensures Key(items[2 * j].pos) !in seen
      {
        if j > 0 { PairShift(items, j - 1); }
      }
      forall j, k | 0 <= j < k < |items| / 2 && items[2 * j].StartItem? && items[2 * k].StartItem?
        ensures Key(items[2 * j].pos) != Key(items[2 * k].pos)
      {
        PairShift(items, k - 1);
        if j > 0 { PairShift(items, j - 1); }
      }
    }
  }

  /** Line `j` of the expected output is the formatted end of pair `j`. */
  lemma {:induction false} OutputsAt(items: seq<Item>, j: nat)
    requires AllRunsOk(items) && j < |items| / 2
    ensures Run(items[2 * j], items[2 * j + 1]).Ok?
    ensures Outputs(items)[j] == Format(Run(items[2 * j], items[2 * j + 1]).value)
    decreases |items|
  {
    AllRunsOkShift(items);
    var tail := items[2..];
    var first := Format(Run(items[0], items[1]).value);
    assert Outputs(items) == [first] + Outputs(tail);
    if j == 0 {
      assert items[2 * j] == items[0] && items[2 * j + 1] == items[1];
    } else {
      OutputsAt(tail, j - 1);
      PairShift(items, j - 1);
      assert Outputs(items)[j] == Outputs(tail)[j - 1];
    }
  }

  /** One pair done: a start not seen before whose move succeeds adds its
      line and its cell. */
  lemma BatchFromStep(items: seq<Item>, seen: set<(int, int)>)
    requires |items| >= 2 && items[0].StartItem? && Key(items[0].pos) !in seen
    requires Run(items[0], items[1]).Ok?
    ensures BatchFrom(items, seen)
            == PrependAll([Format(Run(items[0], items[1]).value)], BatchFrom(items[2..], seen + {Key(items[0].pos)}))
  {
  }

  /** Finished lines can be moved from the pending part to the done part. */
  lemma PrependAllShift(done: seq<string>, line: string, r: Result<seq<string>>)
    ensures PrependAll(done, PrependAll([line], r)) == PrependAll(done + [line], r)
  {
    match r
    case Fail =>
    case Ok(rest) => assert done + ([line] + rest) == (done + [line]) + rest;
  }

  /** The loop from a set `seen` succeeds exactly when every move succeeds,
      no start repeats and none is in `seen`; it then yields the expected
      output. */
  lemma {:induction false} BatchFromSpec(items: seq<Item>, seen: set<(int, int)>)
    ensures BatchFrom(items, seen).Ok? <==>
              AllRunsOk(items) && DistinctStarts(items) && StartsAvoid(items, seen)
    ensures BatchFrom(items, seen).Ok? ==> AllRunsOk(items) && BatchFrom(items, seen).value == Outputs(items)
    decreases |items|
  {
    if |items| >= 2 {
      AllRunsOkShift(items);
      var s0 := items[0];
      if s0.StartItem? && Run(s0, items[1]).Ok? {
        BatchFromSpec(items[2..], seen + {Key(s0.pos)});
        StartsShift(items, seen);
      }
    }
  }

  /** The loop succeeds exactly when every move succeeds and no two rovers
      share a start cell; its output then has one `"x y D"` line per pair,
      each the formatted end of that pair's move, in input order. */
  lemma BatchSpec(items: seq<Item>)
    ensures Batch(items).Ok? <==> AllRunsOk(items) && DistinctStarts(items)
    ensures Batch(items).Ok? ==> AllRunsOk(items) && Batch(items).value == Outputs(items)
  {
    BatchFromSpec(items, {});
  }

  /** A successful loop writes exactly one line per pair, in input order:
      line `j` is `"x y D"` for the end of rover `j`. */
  lemma BatchLines(items: seq<Item>)
    requires Batch(items).Ok?
    ensures |Batch(items).value| == |items| / 2
    ensures forall j | 0 <= j < |items| / 2 ::
              Run(items[2 * j], items[2 * j + 1]).Ok?
              && Batch(items).value[j] == Format(Run(items[2 * j], items[2 * j + 1]).value)
  {
    BatchSpec(items);
    forall j | 0 <= j < |items| / 2
      ensures Run(items[2 * j], items[2 * j + 1]).Ok?
      ensures Batch(items).value[j] == Format(Run(items[2 * j], items[2 * j + 1]).value)
    {
      OutputsAt(items, j);
    }
  }

  /** Two rovers that start from the same cell make the whole run fail. */
  lemma DuplicateStartFails(items: seq<Item>, j: nat, k: nat)
    requires j < k < |items| / 2
    requires items[2 * j].StartItem? && items[2 * k].StartItem?
    requires Key(items[2 * j].pos) == Key(items[2 * k].pos)
    ensures Batch(items) == Fail
  {
    BatchSpec(items);
  }

  // ---------------------------------------------------------------------
  // The output format and the whole run
  // ---------------------------------------------------------------------

  /** An output line has no whitespace at its ends and no lower-case
      letter, so cleaning it changes nothing. */
  lemma FormatClean(t: Triple)
    requires IsHeadingLetter(t.dir)
    ensures Clean(Format(t)) == Format(t) && !IsBlank(Format(t))
  {
    var xs, ys := IntToString(t.x), IntToString(t.y);
    var line := Format(t);
    assert line[0] == xs[0] && line[|line| - 1] == t.dir[0];
    forall k | 0 <= k < |line| ensures !('a' <= line[k] <= 'z') {
      if k < |xs| { assert line[k] == xs[k]; }
      else if k == |xs| { }
      else if k < |xs| + 1 + |ys| { assert line[k] == ys[k - |xs| - 1]; }
      else if k == |xs| + 1 + |ys| { }
      else { assert line[k] == t.dir[k - |xs| - 2 - |ys|]; }
    }
    CleanUnchanged(line);
    assert !IsSpace(line[0]);
  }

  /** An output line splits into its three fields. */
  lemma FormatSplit(t: Triple)
    requires IsHeadingLetter(t.dir)
    ensures Split(Format(t), ' ') == [IntToString(t.x), IntToString(t.y), t.dir]
  {
    var xs, ys := IntToString(t.x), IntToString(t.y);
    assert Format(t) == xs + [' '] + (ys + [' '] + t.dir);
    assert ' ' !in xs && ' ' !in ys && ' ' !in t.dir by {
      assert forall c | c in xs :: c == '-' || IsDigit(c);
      assert forall c | c in ys :: c == '-' || IsDigit(c);
    }
    SplitAfterToken(xs, ys + [' '] + t.dir, ' ');
    SplitAfterToken(ys, t.dir, ' ');
    SplitNoSep(t.dir, ' ');
  }

  /** An output line read back as an even input line gives the same start
      triple: the output format is the input format of a start line. */
  lemma FormatReparses(t: Triple, i: nat)
    requires IsHeadingLetter(t.dir) && i % 2 == 0
    ensures LineItem(Format(t), i) == Some(StartItem(t))
  {
    FormatClean(t);
    FormatSplit(t);
    var tokens := Split(Format(t), ' ');
    IntRoundTrip(t.x);
    IntRoundTrip(t.y);
    assert ParseInt(tokens[0]) == Ok(t.x) && ParseInt(tokens[1]) == Ok(t.y);
    assert StartLine(Format(t), Format(t)) == StartItem(t);
  }

  /** The whole run succeeds exactly when there is an even number of
      non-blank lines, every rover's move succeeds and no two rovers share a
      start cell. */
  lemma SimulateSpec(lines: seq<string>)
    ensures Simulate(lines).Ok? <==>
              CountNonBlank(lines) % 2 == 0 && AllRunsOk(Parsed(lines)) && DistinctStarts(Parsed(lines))
  {
    BatchSpec(Parsed(lines));
  }

  /** A successful run writes one line per rover, which is half the
      non-blank input lines, and line `j` is the end of rover `j`, written
      so that a later run reads it back as that triple. */
  lemma SimulateOutput(lines: seq<string>)
    requires Simulate(lines).Ok?
    ensures |Simulate(lines).value| == CountNonBlank(lines) / 2
    ensures forall j | 0 <= j < |Simulate(lines).value| ::
              var items := Parsed(lines);
              Run(items[2 * j], items[2 * j + 1]).Ok?
              && LineItem(Simulate(lines).value[j], 0) == Some(StartItem(Run(items[2 * j], items[2 * j + 1]).value))
  {
    var items := Parsed(lines);
    var out := Simulate(lines).value;
    assert ParseInputSpec(lines) == Ok(items);
    BatchSpec(items);
    forall j | 0 <= j < |out|
      ensures Run(items[2 * j], items[2 * j + 1]).Ok?
      ensures LineItem(out[j], 0) == Some(StartItem(Run(items[2 * j], items[2 * j + 1]).value))
    {
      OutputsAt(items, j);
      FormatReparses(Run(items[2 * j], items[2 * j + 1]).value, 0);
    }
  }
}
