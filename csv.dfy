/**
 * CSV fields as section 2 of RFC 4180 writes them: a field that holds a
 * comma, a double quote or a line break is enclosed in double quotes, and
 * each double quote inside it is written twice (rules 6 and 7).
 */
module Csv {
  import opened Strings

  /** `"` + `v.replace(/"/g, '""')` + `"`. */
  function Quote(v: string): (f: string)
    ensures |f| >= 2 && f[0] == '"' && f[|f| - 1] == '"'
  {
    "\"" + ReplaceAll(v, '"', "\"\"") + "\""
  }

  /** Quoting never introduces a character other than the quote. */
  lemma QuoteKeepsAbsent(v: string, d: char)
    requires d != '"' && d !in v
    ensures d !in Quote(v)
  {
    ReplaceAllAbsent(v, '"', "\"\"", d);
  }

  /** `f` is `v` written as a CSV field: bare when it holds no comma or quote, or quoted. */
  predicate EncodesField(f: string, v: string)
  {
    (f == v && ',' !in v && '"' !in v) || f == Quote(v)
  }
}
