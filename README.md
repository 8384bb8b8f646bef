# Mars-rover instruction runner, modelled in Dafny

The program reads an input file of line pairs: a start line `x y D` (D one of
N, E, S, W) followed by an instruction line over `L`, `R` and `M`. For each
pair it runs the rover from its start, refuses the whole input if two rovers
start from the same cell, and writes one line `x y D` per rover with its end.

This project models that core, `DIID.py`, in its own form:

- `directions.dfy` (module `Directions`): the `Directions` enum (N = 0,
  E = 1, S = 2, W = 3) and the three lookup tables `convertToNum`,
  `convertToLetter` and `convertToCoord`, as pure functions returning a
  `Result` whose `Fail` stands for the `ValueError` they raise.
- `rover.dfy` (module `Rover`): `move_rover`. The method `MoveRover` keeps the
  source's `for` loop that updates `orientation` and `currPos` in place, with
  the source's wrap-around written out (`< 0` becomes 3, `> 3` is taken
  modulo 4). Its contract is equality with the recursive function `Run`, and
  the properties of the interpreter are lemmas about `Run`, `Exec` and `Step`.
- `parser.dfy` (module `Parser`): `parse_input` over the already-read lines.
  The method `ParseInput` keeps the loop with its counter `i` and its growing
  `output` list and is proved equal to `ParseInputSpec`. Blank lines add
  nothing but still advance `i`, so whether a line is read as a start line is
  decided by its raw index in the file.
- `batch.dfy` (module `Batch`): the pair loop of the constructor `__init__`
  (method `RunBatch`, with its `allStartPos` set and `output` list), the output
  format `" ".join(str(c) for c in endPos)`, and the whole run `Instantiate` =
  parse, then the pair loop, returning the lines that would be written.
- `text.dfy` (module `Text`): the Python string operations the core relies
  on: `strip`, `upper`, `split(" ")` (with its inverse `Join`), `int()` on a
  token and `str()` on an integer (with the round trip between them).
- `items.dfy`, `outcomes.dfy`: the values passed between stages (a parsed
  element is a start list `[x, y, dir]` or a string) and the `Result`/`Option`
  types.

The direction table is modelled as the source writes it: N moves along +x,
S along -x, E along +y and W along -y. The module docstring
(`DIID.py:3-20`) discusses plateau bounds, untraversable terrain, a check of
the terrain in front of a rover, collisions and stopping in place; the code
implements none of them (`DIID.py:109` is an open TODO), and a repeated start
cell stops the whole run. The model follows the code.

Every exception is the one outcome `Fail`. A `ValueError` is caught at
`DIID.py:68`, reported and raised again; an `IndexError` (a too-short string
in a start slot, met by the duplicate check) is not caught there and
propagates as it is. Either way the constructor raises and writes no file.

## Model

| member | source | states |
|---|---|---|
| `Directions.Ordinal` | DIID.py:25-29 | each enum member has its own value in 0..3: N = 0, E = 1, S = 2, W = 3 |
| `Directions.ConvertToNum` | DIID.py:199-209 | succeeds exactly on the four letters and maps N to 0, E to 1, S to 2 and W to 3, the enum values; any other string raises |
| `Directions.ConvertToLetter` | DIID.py:163-173 | succeeds exactly on 0..3 and maps 0 to N, 1 to E, 2 to S and 3 to W; any other number raises |
| `Directions.ConvertToCoord` | DIID.py:181-191 | succeeds exactly on 0..3 and then yields a unit step, following the program's table: N (0) gives (1, 0), S (2) gives (-1, 0), E (1) gives (0, 1) and W (3) gives (0, -1); any other number raises |
| `Directions.LetterNumRoundTrip` | DIID.py:163-209 | `convertToLetter(convertToNum(d)) == d` for every heading letter d |
| `Directions.NumLetterRoundTrip` | DIID.py:163-209 | `convertToNum(convertToLetter(k)) == k` for every k in 0..3, so `convertToNum` maps the letters onto all of 0..3 |
| `Directions.ConvertToNumInjective` | DIID.py:199-209 | two accepted strings with the same number are the same letter (with the line above: a bijection onto 0..3) |
| `Directions.CoordGeometry` | DIID.py:181-191 | headings two apart step in opposite directions and headings one apart step along perpendicular axes |
| `Text.LeadingSpaces` | DIID.py:84 | the length of the whitespace run that `strip()` removes at the front: every character before it is whitespace and the character at it, if any, is not |
| `Text.EndOfText` | DIID.py:84 | the end of the text that `strip()` keeps at the back: every character from it on is whitespace and the character before it, if any, is not |
| `Text.Strip` | DIID.py:84 | `strip()` returns a slice of the line with only whitespace before and after it; it is empty exactly on an all-whitespace line and otherwise neither starts nor ends with whitespace |
| `Text.StripUnique` | DIID.py:84 | any slice with only whitespace around it that starts and ends with non-whitespace is what `strip()` returns, so the contract above fixes the result |
| `Text.UpperChar` | DIID.py:84 | lower-case ASCII letters map to the matching capital; every other character is unchanged |
| `Text.Upper` | DIID.py:84 | `upper()` keeps the length and upper-cases each character in place |
| `Text.Clean` | DIID.py:84 | `line.strip().upper()` is the upper-cased slice of the line between its outer whitespace; it is empty exactly when the line is blank, and otherwise has no whitespace at its ends |
| `Text.UpperCharKeepsSpace` | DIID.py:84 | upper-casing never turns whitespace into non-whitespace or back |
| `Text.CleanUnchanged` | DIID.py:84 | a string with no whitespace at its ends and no lower-case letter is unchanged by cleaning |
| `Text.Split` | DIID.py:87 | `split(" ")` gives at least one token, no token holds a space, and joining the tokens with spaces gives back the string |
| `Text.SplitNoSep` | DIID.py:87 | a string without a space is a single token |
| `Text.SplitAfterToken` | DIID.py:87 | `a + " " + b` with `a` space-free splits into `a` followed by the tokens of `b` |
| `Text.ParseInt` | DIID.py:92-93 | `int(token)` succeeds exactly on an optional sign followed by one or more ASCII digits, and then yields the decimal value of the digits, negated after a minus (so `"007"` is 7 and `"-0"` is 0) |
| `Text.NatToString` | DIID.py:60 | `str(n)` of a natural number is a non-empty digit string whose decimal value is n, with no leading zero: it starts with `0` only for 0, and then is just `"0"` |
| `Text.IntToString` | DIID.py:60 | `str(n)` starts with a minus exactly when n is negative, every later character is a digit, no zero leads the digits unless the number is 0, and it ends in a digit |
| `Text.IntRoundTrip` | DIID.py:60 | `int(str(n)) == n` for every integer n |
| `Rover.Normalize` | DIID.py:144-148 | the wrap-around always yields a heading in 0..3 and agrees with `mod 4` for every value from -1 up |
| `Rover.Step` | DIID.py:133-148 | one instruction keeps the heading in 0..3; from a valid heading it succeeds exactly on L, R and M |
| `Rover.Exec` | DIID.py:132-149 | from a valid heading the run succeeds exactly when every character is L, R or M, with no partial result otherwise, and ends with a heading in 0..3 |
| `Rover.Run` | DIID.py:117-152 | `move_rover` succeeds exactly when the start is a list, the instructions a non-empty string, the heading letter known and every character L, R or M; the reported heading is one of the four letters |
| `Rover.MoveRover` | DIID.py:117-155 | the loop that updates `orientation` and `currPos` in place returns exactly what `Run` specifies, failures included |
| `Rover.ExecAppend` | DIID.py:132-149 | running `s1 + s2` equals running `s2` from the end of `s1`, and fails if `s1` fails |
| `Rover.ExecHeading` | DIID.py:133-148 | the final heading is (start + #R - #L) mod 4 |
| `Rover.TurnsKeepPosition` | DIID.py:132-136 | a string of only L and R never fails, leaves x and y unchanged and turns by #R - #L quarter turns |
| `Rover.TurnsCancel` | DIID.py:133-148 | L/R strings whose turn counts cancel out modulo four leave the whole state unchanged |
| `Rover.TurnIdentities` | DIID.py:133-148 | `LR`, `RL`, `RRRR` and `LLLL` are identities |
| `Rover.MoveStep` | DIID.py:137-140 | one M keeps the heading and changes exactly one coordinate by one: N +x, S -x, E +y, W -y |
| `Rover.ExecDistance` | DIID.py:137-140 | the end cell is at most #M steps from the start cell (x distance plus y distance) |
| `Rover.RunResult` | DIID.py:129-151 | the reported letter is the start letter turned by #R - #L quarter turns and the end is within #M steps of the start |
| `Parser.StartLine` | DIID.py:86-97 | a cleaned even line gives a start list exactly when it splits into three tokens whose first two are integer literals; the list holds their values and the third token; otherwise the line gives the error string quoting the raw line |
| `Parser.ReadStartLine` | DIID.py:86-97 | the even-line branch of the loop produces exactly the item `StartLine` describes |
| `Parser.LineItem` | DIID.py:84-99 | a line contributes nothing exactly when it is blank |
| `Parser.ParseInputSpec` | DIID.py:79-105 | parsing fails exactly when the number of non-blank lines is odd; otherwise it yields one item per non-blank line |
| `Parser.ParseInput` | DIID.py:79-105 | the loop with its counter and output list returns exactly `ParseInputSpec` |
| `Parser.ParsedSnoc` | DIID.py:83-100 | reading one more line appends its item, or nothing for a blank line |
| `Parser.ParsedLength` | DIID.py:83-100 | the output has one item per non-blank line |
| `Parser.ParsedAt` | DIID.py:83-100 | the item of non-blank line k is at the position given by the number of non-blank lines before it, and is decided by k's own parity (blank lines count toward the index) |
| `Parser.ParsedOrigin` | DIID.py:83-100 | every item comes from a non-blank line, the one with as many non-blank lines before it as there are items before the item |
| `Parser.EvenLineIff` | DIID.py:86-95 | a non-blank even line gives `[x, y, d]` exactly when it splits on single spaces into three tokens whose first two read as x and y and whose third is d |
| `Parser.EvenLineError` | DIID.py:86-97 | a non-blank even line without three tokens or with a non-integer among the first two gives the error string quoting the raw line |
| `Parser.OddLine` | DIID.py:98-99 | a non-blank odd line passes through stripped and upper-cased |
| `Batch.Format` | DIID.py:60 | an output line is the three fields `str(x)`, `str(y)` and the letter joined with single spaces (`FormatSplit` is its inverse) |
| `Batch.BatchFrom` | DIID.py:50-62 | the loop from a set of seen start cells yields, when it succeeds, one line per pair |
| `Batch.Batch` | DIID.py:46-62 | the loop from no seen cells yields, when it succeeds, one line per pair |
| `Batch.Simulate` | DIID.py:43-62 | a failed parse fails the run, and a successful run yields half as many lines as there are non-blank input lines |
| `Batch.RunBatch` | DIID.py:46-62 | the pair loop with its start-cell set and output list returns exactly `Batch` |
| `Batch.Instantiate` | DIID.py:43-70 | the constructor without file I/O returns exactly `Simulate`: parse, then the pair loop, any failure failing the run |
| `Batch.BatchLoopFail` | DIID.py:53-58 | a pair whose start cell was seen or whose move fails fails the whole run |
| `Batch.BatchLoopStep` | DIID.py:53-62 | a pair with a new start cell and a successful move appends its line and records its cell |
| `Batch.Outputs` | DIID.py:50-62 | the expected output has one line per pair |
| `Batch.OutputsAt` | DIID.py:58-60 | line j of the expected output is the formatted end of pair j |
| `Batch.BatchFromSpec` | DIID.py:50-62 | from a set of seen cells the loop succeeds exactly when every move succeeds and no start repeats or is already seen, and then yields the expected output |
| `Batch.BatchSpec` | DIID.py:50-62 | the loop succeeds exactly when every move succeeds and no two rovers share a start cell |
| `Batch.BatchLines` | DIID.py:50-62 | a successful loop writes exactly one `"x y D"` line per pair, in input order, each the end of that pair's move |
| `Batch.DuplicateStartFails` | DIID.py:53-55 | two pairs with the same start cell make the whole run fail |
| `Batch.FormatClean` | DIID.py:60 | an output line is unchanged by strip and upper and is not blank |
| `Batch.FormatSplit` | DIID.py:60 | an output line splits on spaces into `str(x)`, `str(y)` and the letter |
| `Batch.FormatReparses` | DIID.py:60 | an output line read as an even input line gives back the same `[x, y, D]` |
| `Batch.SimulateSpec` | DIID.py:43-62 | the whole run succeeds exactly when the number of non-blank lines is even, every rover's move succeeds and no two rovers share a start cell |
| `Batch.SimulateOutput` | DIID.py:43-62 | a successful run writes half as many lines as there are non-blank input lines, line j being the end of rover j in the input's own start-line format |

## Left out

- File reading and writing (`open`, `f.write`, DIID.py:63-66, 81): the model takes the lines of the input file as a sequence of strings and returns the lines it would write.
- The `print` messages (DIID.py:54, 69) and the distinction between exceptions: every `ValueError`, and the `IndexError` that indexing into a one-character string in a start slot raises during the duplicate check, is the single outcome `Fail`.
- The class-level set `allRoverPos` (DIID.py:34, 59): it is only written, never read, so it has no effect on any result.
- The module-level run `DIID("test.txt", "testout.txt")` (DIID.py:211) and the commented-out calls after it: scripts, not logic.
- Plateau boundaries, terrain checks and collisions during moves: the source does not implement them (DIID.py:109 is a TODO), so the model does not invent them.
- Python `int()` details beyond an optional sign and ASCII digits (surrounding whitespace, underscores, non-ASCII digits) and `upper()` on non-ASCII letters: the model reads only ASCII digits and upper-cases only ASCII letters. This changes results: Python upper-cases `ſ` (U+017F) to `S`, so the start line `0 0 ſ` is read as heading S there, while in the model the letter stays `ſ` and the move fails. `strip()` uses Python's full whitespace set.
- Rover.Run: the type checks `type(startPos) != list` and `type(instructions) != str` are modelled only for what the parser can produce (a three-element list or a string); other Python values, and lists of other lengths, cannot reach `move_rover` from the constructor.
