/** `parse_input`, over the lines already read from the input file: every
    line is stripped and upper-cased, blank lines are dropped, and the rest
    alternate between start lines and instruction lines by their position
    in the file, blank lines included. */
module Parser {
  import opened Outcomes
  import opened Items
  import opened Text

  /** The message put in place of a start line that does not parse. */
  const ErrorPrefix := "Error: Incorrect input -- "

  /** A line that `strip()` reduces to nothing. */
  predicate IsBlank(line: string) {
    AllSpace(line)
  }

  /** A cleaned start line: three space-separated tokens whose first two are
      integers become `[x, y, dir]`; anything else becomes the error message
      quoting the raw line. */
  function StartLine(cleaned: string, line: string): (r: Item)
    ensures var tokens := Split(cleaned, ' ');
            r.StartItem? <==> |tokens| == 3 && IsIntLiteral(tokens[0]) && IsIntLiteral(tokens[1])
    ensures var tokens := Split(cleaned, ' ');
            r.StartItem? ==> |tokens| == 3 && ParseInt(tokens[0]) == Ok(r.pos.x)
                             && ParseInt(tokens[1]) == Ok(r.pos.y) && tokens[2] == r.pos.dir
    ensures r.TextItem? ==> r.text == ErrorPrefix + line
  {
    var startPos := Split(cleaned, ' ');
    if |startPos| != 3 then TextItem(ErrorPrefix + line)
    else
      match (ParseInt(startPos[0]), ParseInt(startPos[1]))
      case (Ok(x), Ok(y)) => StartItem(Triple(x, y, startPos[2]))
      case _ => TextItem(ErrorPrefix + line)
  }

  /** What the line with raw index `i` adds to the output: nothing when it
      is blank, a start item when `i` is even, the cleaned text when odd. */
  function LineItem(line: string, i: nat): (r: Option<Item>)
    ensures r.None? <==> IsBlank(line)
  {
    var cleaned := Clean(line);
    if cleaned == [] then None
    else if i % 2 == 0 then Some(StartLine(cleaned, line))
    else Some(TextItem(cleaned))
  }

  /** The item each line contributes, by raw index. */
  function LineItems(lines: seq<string>): (r: seq<Option<Item>>)
    ensures |r| == |lines|
    ensures forall k | 0 <= k < |lines| :: r[k] == LineItem(lines[k], k)
  {
    seq(|lines|, k requires 0 <= k < |lines| => LineItem(lines[k], k))
  }

  /** The present values, in order: what appending to `output` builds. */
  function Flatten<T>(os: seq<Option<T>>): seq<T> {
    if os == [] then []
    else
      var n := |os| - 1;
      Flatten(os[..n]) + (if os[n].Some? then [os[n].value] else [])
  }

  /** The number of present values. */
  function CountSome<T>(os: seq<Option<T>>): nat {
    if os == [] then 0
    else CountSome(os[..|os| - 1]) + (if os[|os| - 1].Some? then 1 else 0)
  }

  /** The output list after the loop has seen all of `lines`. */
  function Parsed(lines: seq<string>): seq<Item> {
    Flatten(LineItems(lines))
  }

  /** The number of lines that are not blank. */
  function CountNonBlank(lines: seq<string>): nat {
    if lines == [] then 0
    else CountNonBlank(lines[..|lines| - 1]) + (if IsBlank(lines[|lines| - 1]) then 0 else 1)
  }

  /** `parse_input`'s result: the items, unless there is an odd number of
      them, in which case it raises. */
  function ParseInputSpec(lines: seq<string>): (r: Result<seq<Item>>)
    ensures r.Ok? <==> CountNonBlank(lines) % 2 == 0
    ensures r.Ok? ==> r.value == Parsed(lines) && |r.value| == CountNonBlank(lines)
  {
    ParsedLength(lines);
    if |Parsed(lines)| % 2 != 0 then Fail else Ok(Parsed(lines))
  }

  /** `parse_input` with its loop over the lines, its counter `i` that
      advances on every line, and its `output` list that grows. */
  method ParseInput(lines: seq<string>) returns (r: Result<seq<Item>>)
    ensures r == ParseInputSpec(lines)
  {
    var output: seq<Item> := [];
    var i := 0;
    while i < |lines|
      invariant 0 <= i <= |lines|
      invariant output == Parsed(lines[..i])
    {
      ParsedSnoc(lines, i);
      ghost var before := output;
      var line := lines[i];
      var cleaned := Clean(line);
      if cleaned != [] {
        if i % 2 == 0 {
          var item := ReadStartLine(cleaned, line);
          output := output + [item];
        } else {
          output := output + [TextItem(cleaned)];
        }
      }
      assert output == before + (if IsBlank(line) then [] else [LineItem(line, i).value]);
      i := i + 1;
    }
    assert lines[..|lines|] == lines;
    if |output| % 2 != 0 {
      return Fail;
    }
    return Ok(output);
  }

  /** The even-line branch of the loop: split the cleaned line, convert the
      first two tokens, or fall back to the error message. */
  method ReadStartLine(cleaned: string, line: string) returns (item: Item)
    ensures item == StartLine(cleaned, line)
  {
    var startPos := Split(cleaned, ' ');
    if |startPos| != 3 {
      return TextItem(ErrorPrefix + line);
    }
    var x := ParseInt(startPos[0]);
    var y := ParseInt(startPos[1]);
    if x.Ok? && y.Ok? {
      item := StartItem(Triple(x.value, y.value, startPos[2]));
    } else {
      item := TextItem(ErrorPrefix + line);
    }
  }

  /** One more line read: its item, if any, is appended. */
  lemma ParsedSnoc(lines: seq<string>, i: nat)
    requires i < |lines|
    ensures Parsed(lines[..i + 1]) == Parsed(lines[..i])
              + (if IsBlank(lines[i]) then [] else [LineItem(lines[i], i).value])
  {
    assert LineItems(lines[..i + 1])[..i] == LineItems(lines[..i]);
  }

  // ---------------------------------------------------------------------
  // Properties of the parser
  // ---------------------------------------------------------------------

  /** One value per present entry. */
  lemma {:induction false} FlattenLength<T>(os: seq<Option<T>>)
    ensures |Flatten(os)| == CountSome(os)
    decreases |os|
  {
    if os != [] {
      FlattenLength(os[..|os| - 1]);
    }
  }

  /** A present entry `k` gives the value after those of the entries before it. */
  lemma {:induction false} FlattenAt<T>(os: seq<Option<T>>, k: nat)
    requires k < |os| && os[k].Some?
    ensures CountSome(os[..k]) < |Flatten(os)|
    ensures Flatten(os)[CountSome(os[..k])] == os[k].value
    decreases |os|
  {
    var n := |os| - 1;
    var init := os[..n];
    FlattenLength(init);
    if k == n {
      assert os[..k] == init;
    } else {
      assert init[k] == os[k] && init[..k] == os[..k];
      FlattenAt(init, k);
    }
  }

  /** The index of the entry that value `j` of `Flatten(os)` comes from. */
  function Origin<T>(os: seq<Option<T>>, j: nat): (k: nat)
    requires j < |Flatten(os)|
    ensures k < |os|
    decreases |os|
  {
    var n := |os| - 1;
    FlattenLength(os[..n]);
    if j < |Flatten(os[..n])| then Origin(os[..n], j) else n
  }

  /** Every value comes from a present entry, with as many present entries
      before it as values before it. */
  lemma {:induction false} FlattenOrigin<T>(os: seq<Option<T>>, j: nat)
    requires j < |Flatten(os)|
    ensures var k := Origin(os, j);
            os[k].Some? && CountSome(os[..k]) == j && os[k].value == Flatten(os)[j]
    decreases |os|
  {
    var n := |os| - 1;
    var init := os[..n];
    FlattenLength(init);
    if j < |Flatten(init)| {
      FlattenOrigin(init, j);
      var k := Origin(init, j);
      assert os[k] == init[k] && os[..k] == init[..k];
    } else {
      assert os[..n] == init;
    }
  }

  /** The line items of a prefix are a prefix of the line items. */
  lemma LineItemsPrefix(lines: seq<string>, k: nat)
    requires k <= |lines|
    ensures LineItems(lines[..k]) == LineItems(lines)[..k]
  {
  }

  /** Counting present line items is counting non-blank lines. */
  lemma {:induction false} CountSomeLineItems(lines: seq<string>)
    ensures CountSome(LineItems(lines)) == CountNonBlank(lines)
    decreases |lines|
  {
    if lines != [] {
      var n := |lines| - 1;
      LineItemsPrefix(lines, n);
      CountSomeLineItems(lines[..n]);
    }
  }

  /** One item per non-blank line. */
  lemma ParsedLength(lines: seq<string>)
    ensures |Parsed(lines)| == CountNonBlank(lines)
  {
    FlattenLength(LineItems(lines));
    CountSomeLineItems(lines);
  }

  /** The item of a non-blank line `k` sits after the items of the non-blank
      lines before it, and is decided by `k` itself, so a blank line still
      changes which of the following lines count as start lines. */
  lemma ParsedAt(lines: seq<string>, k: nat)
    requires k < |lines| && !IsBlank(lines[k])
    ensures CountNonBlank(lines[..k]) < |Parsed(lines)|
    ensures Parsed(lines)[CountNonBlank(lines[..k])] == LineItem(lines[k], k).value
  {
    FlattenAt(LineItems(lines), k);
    LineItemsPrefix(lines, k);
    CountSomeLineItems(lines[..k]);
  }

  /** Conversely every item comes from a non-blank line, the one with as
      many non-blank lines before it as the item has items before it. */
  lemma ParsedOrigin(lines: seq<string>, j: nat)
    requires j < |Parsed(lines)|
    ensures var k := Origin(LineItems(lines), j);
            !IsBlank(lines[k]) && CountNonBlank(lines[..k]) == j
            && LineItem(lines[k], k) == Some(Parsed(lines)[j])
  {
    var k := Origin(LineItems(lines), j);
    FlattenOrigin(LineItems(lines), j);
    LineItemsPrefix(lines, k);
    CountSomeLineItems(lines[..k]);
  }

  /** A non-blank line with an even raw index gives `[x, y, d]` exactly when
      it splits on single spaces into three tokens of which the first two
      read as `x` and `y` and the third is `d`. */
  lemma EvenLineIff(line: string, i: nat, t: Triple)
    requires i % 2 == 0 && !IsBlank(line)
    ensures var tokens := Split(Clean(line), ' ');
            LineItem(line, i) == Some(StartItem(t)) <==>
              |tokens| == 3 && ParseInt(tokens[0]) == Ok(t.x) && ParseInt(tokens[1]) == Ok(t.y)
              && tokens[2] == t.dir
  {
  }

  /** Otherwise such a line gives the error message quoting the raw line. */
  lemma EvenLineError(line: string, i: nat)
    requires i % 2 == 0 && !IsBlank(line)
    requires var tokens := Split(Clean(line), ' ');
             !(|tokens| == 3 && IsIntLiteral(tokens[0]) && IsIntLiteral(tokens[1]))
    ensures LineItem(line, i) == Some(TextItem(ErrorPrefix + line))
  {
  }

  /** A non-blank line with an odd raw index passes through, cleaned. */
  lemma OddLine(line: string, i: nat)
    requires i % 2 == 1 && !IsBlank(line)
    ensures LineItem(line, i) == Some(TextItem(Clean(line)))
  {
  }
}
