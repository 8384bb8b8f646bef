/** The values the rover program passes between its stages. */
module Items {

  /** A Python list `[x, y, direction]`: a rover's start as parsed from an
      input line, or its end as `move_rover` returns it. */
  datatype Triple = Triple(x: int, y: int, dir: string)

  /** An element of the list `parse_input` returns: either a start list or a
      string (an instruction line, or the error message for a bad start line). */
  datatype Item = StartItem(pos: Triple) | TextItem(text: string)
}
