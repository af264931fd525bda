/** Page windows of the list handlers: `page = parse(_page) || 1`,
    `limit = parse(_limit) || 10`, `offset = (page - 1) * limit`. */
module Pagination {
  import opened Http

  const DEFAULT_PAGE := 1
  const DEFAULT_LIMIT := 10

  /** `n || d` on a parsed number: NaN (None) and 0 are falsy. */
  function OrDefault(parsed: Option<int>, d: int): (v: int)
    ensures parsed.Some? && parsed.value != 0 ==> v == parsed.value
    ensures parsed.None? || parsed.value == 0 ==> v == d
  {
    if parsed.Some? && parsed.value != 0 then parsed.value else d
  }

  /** The `(offset, limit)` passed to the query for the given parsed parameters. */
  function Window(page: Option<int>, limit: Option<int>): (w: (int, int))
    ensures w.1 != 0
    ensures w.1 == OrDefault(limit, DEFAULT_LIMIT)
    ensures w.0 == (OrDefault(page, DEFAULT_PAGE) - 1) * w.1
  {
    var p := OrDefault(page, DEFAULT_PAGE);
    var l := OrDefault(limit, DEFAULT_LIMIT);
    ((p - 1) * l, l)
  }

  /** Without parameters the first ten rows are listed. */
  lemma DefaultWindow()
    ensures Window(None, None) == (0, 10)
    ensures Window(Some(0), Some(0)) == (0, 10)
  {
  }

  /** For positive page numbers and limits the windows tile the table:
      each starts at or after 0 and page `p + 1` starts where page `p` ends. */
  lemma WindowsAdjacent(p: int, l: int)
    requires p >= 1 && l >= 1
    ensures Window(Some(p), Some(l)).0 >= 0
    ensures Window(Some(p + 1), Some(l)).0 == Window(Some(p), Some(l)).0 + l
  {
    assert (p + 1 - 1) * l == (p - 1) * l + l;
    assert (p - 1) * l >= 0;
  }

  /** Windows of distinct positive pages never overlap. */
  lemma WindowsDisjoint(p: int, q: int, l: int)
    requires 1 <= p < q && l >= 1
    ensures Window(Some(p), Some(l)).0 + l <= Window(Some(q), Some(l)).0
  {
    assert (q - 1) * l - p * l == (q - 1 - p) * l;
    assert (q - 1 - p) * l >= 0;
    assert (p - 1) * l + l == p * l;
  }
}
