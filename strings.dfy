/**
 * Text helpers shared by the models: the JavaScript / Python string operations
 * the application uses (trim, split, join, includes, startsWith, replace,
 * toLowerCase, toUpperCase, padStart), written over `seq<char>`.
 *
 * Whitespace is the ASCII set space, tab, line feed, carriage return, vertical
 * tab and form feed; case mapping covers ASCII and the Latin-1 letters.
 */
module Strings {

  /** The characters `trim()`, `strip()` and the regex class `\s` remove or match. */
  predicate IsSpace(c: char)
  {
    c == ' ' || c == '\t' || c == '\n' || c == '\r' || c == '\U{0B}' || c == '\U{0C}'
  }

  predicate IsDigit(c: char) { '0' <= c <= '9' }

  predicate IsAsciiLetter(c: char) { 'a' <= c <= 'z' || 'A' <= c <= 'Z' }

  /** The regex class `\w` of JavaScript: ASCII letters, digits and underscore. */
  predicate IsWordChar(c: char) { IsAsciiLetter(c) || IsDigit(c) || c == '_' }

  predicate AllDigits(s: string) { forall i :: 0 <= i < |s| ==> IsDigit(s[i]) }

  predicate IsBlank(s: string) { forall i :: 0 <= i < |s| ==> IsSpace(s[i]) }

  // ---------------------------------------------------------------- trimming

  /** `trimStart()`: the suffix left once the leading whitespace is gone. */
  function TrimStart(s: string): (r: string)
    ensures |r| <= |s|
    ensures r == [] || !IsSpace(r[0])
  {
    if s != [] && IsSpace(s[0]) then TrimStart(s[1..]) else s
  }

  /** `TrimStart` keeps a suffix, and what it removes is whitespace. */
  lemma {:induction false} TrimStartSpaces(s: string)
    ensures TrimStart(s) == s[|s| - |TrimStart(s)|..]
    ensures forall i :: 0 <= i < |s| - |TrimStart(s)| ==> IsSpace(s[i])
  {
    if s != [] && IsSpace(s[0]) {
      TrimStartSpaces(s[1..]);
      assert s[1..][|s| - 1 - |TrimStart(s)|..] == s[|s| - |TrimStart(s)|..];
      assert forall i :: 1 <= i < |s| - |TrimStart(s)| ==> s[i] == s[1..][i - 1];
    }
  }

  /** Leading whitespace in front of a text is what `TrimStart` removes. */
  lemma {:induction false} TrimStartBlankPrefix(ws: string, body: string)
    requires IsBlank(ws)
    ensures TrimStart(ws + body) == TrimStart(body)
  {
    if ws != [] {
      assert (ws + body)[0] == ws[0] && IsSpace(ws[0]);
      assert (ws + body)[1..] == ws[1..] + body;
      assert IsBlank(ws[1..]);
      TrimStartBlankPrefix(ws[1..], body);
      assert TrimStart(ws + body) == TrimStart(ws[1..] + body);
    } else {
      assert ws + body == body;
    }
  }

  /** `trimEnd()`: the prefix left once the trailing whitespace is gone. */
  function TrimEnd(s: string): (r: string)
    ensures |r| <= |s|
    ensures r == [] || !IsSpace(r[|r| - 1])
  {
    if s != [] && IsSpace(s[|s| - 1]) then TrimEnd(s[..|s| - 1]) else s
  }

  /** `TrimEnd` keeps a prefix, and what it removes is whitespace. */
  lemma {:induction false} TrimEndSpaces(s: string)
    ensures TrimEnd(s) == s[..|TrimEnd(s)|]
    ensures forall i :: |TrimEnd(s)| <= i < |s| ==> IsSpace(s[i])
  {
    if s != [] && IsSpace(s[|s| - 1]) {
      TrimEndSpaces(s[..|s| - 1]);
      assert s[..|s| - 1][..|TrimEnd(s)|] == s[..|TrimEnd(s)|];
      assert forall i :: |TrimEnd(s)| <= i < |s| - 1 ==> s[i] == s[..|s| - 1][i];
    }
  }

  /** `String.prototype.trim` / Python `str.strip()`. */
  function Trim(s: string): (r: string)
    ensures |r| <= |s|
    ensures r == [] || (!IsSpace(r[0]) && !IsSpace(r[|r| - 1]))
  {
    TrimEndSpaces(TrimStart(s));
    TrimEnd(TrimStart(s))
  }

  /** `trim()` leaves nothing exactly of a blank string. */
  lemma TrimEmpty(s: string)
    ensures Trim(s) == [] <==> IsBlank(s)
  {
    TrimStartSpaces(s);
    TrimEndSpaces(TrimStart(s));
  }

  /** Trimming a string with no whitespace at either end changes nothing. */
  lemma TrimUnchanged(s: string)
    requires s == [] || (!IsSpace(s[0]) && !IsSpace(s[|s| - 1]))
    ensures Trim(s) == s
  {
    assert TrimStart(s) == s;
  }

  lemma TrimIdempotent(s: string)
    ensures Trim(Trim(s)) == Trim(s)
  {
    var t := Trim(s);
    TrimUnchanged(t);
    assert Trim(t) == t;
  }

  /** Trimming a string free of whitespace changes nothing. */
  lemma TrimNoSpace(s: string)
    requires forall i :: 0 <= i < |s| ==> !IsSpace(s[i])
    ensures Trim(s) == s
  {
  }

  /** Each entry of `parts`, whitespace-trimmed. */
  function TrimEach(parts: seq<string>): (r: seq<string>)
    ensures |r| == |parts|
    ensures forall i :: 0 <= i < |parts| ==> r[i] == Trim(parts[i])
  {
    seq(|parts|, i requires 0 <= i < |parts| => Trim(parts[i]))
  }

  /** Whitespace added at the end of a string is trimmed away with the rest. */
  lemma TrimBlankSuffix(v: string, ws: string)
    requires IsBlank(ws)
    ensures Trim(v + ws) == Trim(v)
  {
    TrimEmpty(v);
    TrimEmpty(v + ws);
    if IsBlank(v) {
      assert IsBlank(v + ws);
    } else {
      TrimStartBlankSuffix(v, ws);
      TrimEndBlankSuffix(TrimStart(v), ws);
    }
  }

  lemma {:induction false} TrimStartBlankSuffix(v: string, ws: string)
    requires !IsBlank(v)
    ensures TrimStart(v + ws) == TrimStart(v) + ws
  {
    if IsSpace(v[0]) {
      assert (v + ws)[1..] == v[1..] + ws;
      TrimStartBlankSuffix(v[1..], ws);
    }
  }

  lemma {:induction false} TrimEndBlankSuffix(u: string, ws: string)
    requires IsBlank(ws)
    ensures TrimEnd(u + ws) == TrimEnd(u)
    decreases |ws|
  {
    if ws == [] {
      assert u + ws == u;
    } else {
      var w := ws[..|ws| - 1];
      assert (u + ws)[..|u + ws| - 1] == u + w;
      TrimEndBlankSuffix(u, w);
    }
  }

  // --------------------------------------------------------- split and join

  /** Number of occurrences of `c` in `s`. */
  function Count(s: string, c: char): (n: nat)
    ensures n <= |s|
    ensures n == 0 <==> c !in s
  {
    if s == [] then 0 else (if s[0] == c then 1 else 0) + Count(s[1..], c)
  }

  /** Index of the first `c` in `s`, or `|s|` when there is none. */
  function IndexOf(s: string, c: char): (k: nat)
    ensures k <= |s|
    ensures k < |s| ==> s[k] == c
    ensures c !in s[..k]
  {
    if s == [] then 0 else if s[0] == c then 0 else 1 + IndexOf(s[1..], c)
  }

  /** `s.lastIndexOf(c)`: the index of the last `c` in `s`, or -1 when there is none. */
  function LastIndexOf(s: string, c: char): (k: int)
    ensures -1 <= k < |s|
    ensures k == -1 <==> c !in s
    ensures k >= 0 ==> s[k] == c && c !in s[k + 1..]
  {
    if s == [] then -1
    else if s[|s| - 1] == c then |s| - 1
    else
      var k := LastIndexOf(s[..|s| - 1], c);
      LastIndexOfStep(s, c, k);
      k
  }

  /** A last character other than `c` leaves the last `c` of the rest in place. */
  lemma LastIndexOfStep(s: string, c: char, k: int)
    requires s != [] && s[|s| - 1] != c && -1 <= k < |s| - 1
    requires k == -1 <==> c !in s[..|s| - 1]
    requires k >= 0 ==> s[k] == c && c !in s[..|s| - 1][k + 1..]
    ensures k == -1 <==> c !in s
    ensures k >= 0 ==> c !in s[k + 1..]
  {
    var init := s[..|s| - 1];
    assert s == init + [s[|s| - 1]];
    if k >= 0 {
      assert s[k + 1..] == init[k + 1..] + [s[|s| - 1]];
    }
  }

  /** `parts.join(sep)`. */
  function Join(parts: seq<string>, sep: string): (r: string)
  {
    if parts == [] then ""
    else if |parts| == 1 then parts[0]
    else parts[0] + sep + Join(parts[1..], sep)
  }

  /** `s.split(c)` with a one-character separator: never empty, separators dropped. */
  function Split(s: string, c: char): (parts: seq<string>)
    ensures |parts| == Count(s, c) + 1
    ensures forall i :: 0 <= i < |parts| ==> c !in parts[i]
    decreases |s|
  {
    var k := IndexOf(s, c);
    if k == |s| then
      assert s[..k] == s;
      [s]
    else
      var rest := Split(s[k + 1..], c);
      CountSplitAt(s, c, k);
      [s[..k]] + rest
  }

  /** Joining the parts of a split with the separator gives the string back. */
  lemma {:induction false} JoinSplit(s: string, c: char)
    ensures Join(Split(s, c), [c]) == s
    decreases |s|
  {
    var k := IndexOf(s, c);
    if k == |s| {
      assert s[..k] == s;
    } else {
      JoinSplit(s[k + 1..], c);
      assert s == s[..k] + [c] + s[k + 1..];
    }
  }

  lemma CountSplitAt(s: string, c: char, k: nat)
    requires k < |s| && s[k] == c && c !in s[..k]
    ensures Count(s, c) == 1 + Count(s[k + 1..], c)
  {
    if k > 0 {
      assert s[1..][..k - 1] == s[1..k];
      assert s[1..][k..] == s[k + 1..];
      CountSplitAt(s[1..], c, k - 1);
    }
  }

  lemma {:induction false} CountConcat(a: string, b: string, c: char)
    ensures Count(a + b, c) == Count(a, c) + Count(b, c)
  {
    if a != [] {
      assert (a + b)[1..] == a[1..] + b;
      CountConcat(a[1..], b, c);
    } else {
      assert a + b == b;
    }
  }

  /** Split undoes Join when no part contains the separator. */
  lemma {:induction false} SplitJoin(parts: seq<string>, c: char)
    requires |parts| >= 1
    requires forall i :: 0 <= i < |parts| ==> c !in parts[i]
    ensures Split(Join(parts, [c]), c) == parts
  {
    if |parts| > 1 {
      var tail := Join(parts[1..], [c]);
      assert Join(parts, [c]) == parts[0] + [c] + tail;
      SplitAtFirst(parts[0], tail, c);
      SplitJoin(parts[1..], c);
      assert parts == [parts[0]] + parts[1..];
    } else {
      IndexOfAbsent(parts[0], c);
    }
  }

  /** A split stops at the first separator. */
  lemma SplitAtFirst(a: string, b: string, c: char)
    requires c !in a
    ensures Split(a + [c] + b, c) == [a] + Split(b, c)
  {
    var s := a + [c] + b;
    IndexOfPrefix(a, b, c);
    assert s[..|a|] == a;
    assert s[|a| + 1..] == b;
  }

  /** Three parts without the separator, joined by it, split back into the three. */
  lemma SplitThree(a: string, b: string, c: string, ch: char)
    requires ch !in a && ch !in b && ch !in c
    ensures Split(a + [ch] + b + [ch] + c, ch) == [a, b, c]
  {
    assert Join([b, c], [ch]) == b + [ch] + c;
    assert Join([a, b, c], [ch]) == a + [ch] + Join([b, c], [ch]);
    assert a + [ch] + b + [ch] + c == Join([a, b, c], [ch]);
    SplitJoin([a, b, c], ch);
  }

  /** A character absent from `s` is absent from every part of its split. */
  lemma {:induction false} SplitKeepsAbsent(s: string, c: char, d: char)
    requires d !in s
    ensures forall i :: 0 <= i < |Split(s, c)| ==> d !in Split(s, c)[i]
    decreases |s|
  {
    var k := IndexOf(s, c);
    if k < |s| {
      assert d !in s[k + 1..] && d !in s[..k];
      SplitKeepsAbsent(s[k + 1..], c, d);
    } else {
      assert s[..k] == s;
    }
  }

  lemma IndexOfAbsent(s: string, c: char)
    requires c !in s
    ensures IndexOf(s, c) == |s|
  {
  }

  lemma {:induction false} IndexOfPrefix(a: string, b: string, c: char)
    requires c !in a
    ensures IndexOf(a + [c] + b, c) == |a|
  {
    if a != [] {
      assert (a + [c] + b)[1..] == a[1..] + [c] + b;
      IndexOfPrefix(a[1..], b, c);
    }
  }

  /** A character in neither the parts nor the separator is not in the joined string. */
  lemma {:induction false} JoinNoChar(parts: seq<string>, sep: string, c: char)
    requires c !in sep
    requires forall i :: 0 <= i < |parts| ==> c !in parts[i]
    ensures c !in Join(parts, sep)
  {
    if |parts| > 1 {
      JoinNoChar(parts[1..], sep, c);
    }
  }

  /** Join of a non-empty list starts with the first part and ends with the last. */
  lemma {:induction false} JoinEnds(parts: seq<string>, sep: string)
    requires |parts| >= 1
    ensures StartsWith(Join(parts, sep), parts[0])
    ensures |parts[|parts| - 1]| <= |Join(parts, sep)|
    ensures Join(parts, sep)[|Join(parts, sep)| - |parts[|parts| - 1]|..] == parts[|parts| - 1]
  {
    if |parts| > 1 {
      JoinEnds(parts[1..], sep);
      var j := Join(parts, sep);
      assert j == parts[0] + sep + Join(parts[1..], sep);
      assert j[..|parts[0]|] == parts[0];
    }
  }

  /** Joining one more part adds the separator and that part at the end. */
  lemma {:induction false} JoinSnoc(parts: seq<string>, x: string, sep: string)
    requires |parts| >= 1
    ensures Join(parts + [x], sep) == Join(parts, sep) + sep + x
  {
    if |parts| > 1 {
      assert (parts + [x])[1..] == parts[1..] + [x];
      JoinSnoc(parts[1..], x, sep);
    } else {
      assert (parts + [x])[1..] == [x];
    }
  }

  /** Trimming a leading blank off a trimmed non-empty word gives the word. */
  lemma TrimLeadingSpace(c: string)
    requires c != [] && Trim(c) == c
    ensures Trim(" " + c) == c
  {
    var s := " " + c;
    assert s[1..] == c;
    assert !IsSpace(c[0]) && !IsSpace(c[|c| - 1]);
    assert TrimStart(s) == TrimStart(c) == c;
  }

  // ------------------------------------------------------ search and replace

  predicate StartsWith(s: string, prefix: string)
  {
    |prefix| <= |s| && s[..|prefix|] == prefix
  }

  /** `s.includes(sub)`. */
  predicate Contains(s: string, sub: string)
  {
    exists i :: 0 <= i <= |s| - |sub| && OccursAt(s, sub, i)
  }

  predicate OccursAt(s: string, sub: string, i: int)
  {
    0 <= i <= |s| - |sub| && s[i..i + |sub|] == sub
  }

  /** Every `c` in `s` replaced by `repl` (`s.replace(/c/g, repl)`). */
  function ReplaceAll(s: string, c: char, repl: string): (r: string)
    ensures c !in repl ==> c !in r
    ensures c !in s ==> r == s
  {
    if s == [] then ""
    else (if s[0] == c then repl else [s[0]]) + ReplaceAll(s[1..], c, repl)
  }

  /** A character in neither `s` nor `repl` is not in the replaced string. */
  lemma {:induction false} ReplaceAllAbsent(s: string, c: char, repl: string, d: char)
    requires d !in s && d !in repl
    ensures d !in ReplaceAll(s, c, repl)
  {
    if s != [] {
      ReplaceAllAbsent(s[1..], c, repl, d);
    }
  }

  /** The first `c` in `s` replaced by `repl` (`s.replace(c, repl)` with a string pattern). */
  function ReplaceFirst(s: string, c: char, repl: string): (r: string)
    ensures c !in s ==> r == s
    ensures c in s ==> r == s[..IndexOf(s, c)] + repl + s[IndexOf(s, c) + 1..]
  {
    var k := IndexOf(s, c);
    if k == |s| then assert s[..k] == s; s else s[..k] + repl + s[k + 1..]
  }

  /** `s` with every character satisfying `drop` removed (`s.replace(/[...]/g, '')`). */
  function Remove(s: string, drop: char -> bool): (r: string)
    ensures |r| <= |s|
  {
    if s == [] then ""
    else if drop(s[0]) then Remove(s[1..], drop)
    else [s[0]] + Remove(s[1..], drop)
  }

  /**
   * What is removed is exactly what `drop` selects: nothing of it is left,
   * every other character is kept, and a string without any is unchanged.
   */
  lemma RemoveSpec(s: string, drop: char -> bool)
    ensures forall i :: 0 <= i < |Remove(s, drop)| ==> !drop(Remove(s, drop)[i])
    ensures forall i :: 0 <= i < |s| && !drop(s[i]) ==> s[i] in Remove(s, drop)
    ensures (forall i :: 0 <= i < |s| ==> !drop(s[i])) ==> Remove(s, drop) == s
  {
    RemoveDropsAll(s, drop);
    RemoveKeepsRest(s, drop);
    if forall i :: 0 <= i < |s| ==> !drop(s[i]) {
      RemoveNothing(s, drop);
    }
  }

  lemma {:induction false} RemoveDropsAll(s: string, drop: char -> bool)
    ensures forall i :: 0 <= i < |Remove(s, drop)| ==> !drop(Remove(s, drop)[i])
  {
    if s != [] {
      var rest := Remove(s[1..], drop);
      RemoveDropsAll(s[1..], drop);
      if !drop(s[0]) {
        assert Remove(s, drop) == [s[0]] + rest;
      }
    }
  }

  lemma {:induction false} RemoveKeepsRest(s: string, drop: char -> bool)
    ensures forall i :: 0 <= i < |s| && !drop(s[i]) ==> s[i] in Remove(s, drop)
  {
    if s != [] {
      var rest := Remove(s[1..], drop);
      RemoveKeepsRest(s[1..], drop);
      assert forall i :: 1 <= i < |s| ==> s[i] == s[1..][i - 1];
      assert forall x :: x in rest ==> x in Remove(s, drop);
    }
  }

  lemma {:induction false} RemoveNothing(s: string, drop: char -> bool)
    requires forall i :: 0 <= i < |s| ==> !drop(s[i])
    ensures Remove(s, drop) == s
  {
    if s != [] {
      assert forall i :: 0 <= i < |s[1..]| ==> s[1..][i] == s[i + 1];
      RemoveNothing(s[1..], drop);
      assert Remove(s, drop) == [s[0]] + s[1..];
    }
  }

  /** No character of `s` is one `drop` selects. */
  predicate NoneDropped(s: string, drop: char -> bool)
  {
    forall i :: 0 <= i < |s| ==> !drop(s[i])
  }

  /** Two strings with nothing to drop make one with nothing to drop. */
  lemma NoneDroppedConcat(a: string, b: string, drop: char -> bool)
    requires NoneDropped(a, drop) && NoneDropped(b, drop)
    ensures NoneDropped(a + b, drop)
  {
    forall i | 0 <= i < |a + b| ensures !drop((a + b)[i]) {
      if i < |a| {
        assert (a + b)[i] == a[i];
      } else {
        assert (a + b)[i] == b[i - |a|];
      }
    }
  }

  // ------------------------------------------------------------ case mapping

  /** An upper-case letter of ASCII or Latin-1 (not the multiplication sign). */
  predicate IsUpper(c: char)
  {
    'A' <= c <= 'Z' || ('\U{C0}' <= c <= '\U{DE}' && c != '\U{D7}')
  }

  /** A lower-case letter of ASCII or Latin-1 whose capital is also Latin-1. */
  predicate IsLower(c: char)
  {
    'a' <= c <= 'z' || ('\U{E0}' <= c <= '\U{FE}' && c != '\U{F7}')
  }

  function LowerChar(c: char): (r: char)
    ensures !IsUpper(r)
  {
    if IsUpper(c) then (c as int + 32) as char else c
  }

  function UpperChar(c: char): (r: char)
    ensures !IsLower(r)
  {
    if IsLower(c) then (c as int - 32) as char else c
  }

  /** `s.toLowerCase()`. */
  function Lower(s: string): (r: string)
    ensures |r| == |s|
    ensures forall i :: 0 <= i < |s| ==> r[i] == LowerChar(s[i])
  {
    if s == [] then "" else [LowerChar(s[0])] + Lower(s[1..])
  }

  /** `s.toUpperCase()`. */
  function Upper(s: string): (r: string)
    ensures |r| == |s|
    ensures forall i :: 0 <= i < |s| ==> r[i] == UpperChar(s[i])
  {
    if s == [] then "" else [UpperChar(s[0])] + Upper(s[1..])
  }

  lemma LowerIdempotent(s: string)
    ensures Lower(Lower(s)) == Lower(s)
  {
  }

  lemma SpacePreservedByCase(c: char)
    ensures IsSpace(LowerChar(c)) <==> IsSpace(c)
    ensures IsSpace(UpperChar(c)) <==> IsSpace(c)
  {
  }

  // ----------------------------------------------------------------- numbers

  function DigitValue(c: char): (d: nat)
    requires IsDigit(c)
    ensures d < 10
  {
    c as int - '0' as int
  }

  /** The value of a string of decimal digits (`parseInt` / `Number` of it). */
  function DigitsValue(s: string): (n: nat)
    requires AllDigits(s)
  {
    if s == [] then 0 else DigitsValue(s[..|s| - 1]) * 10 + DigitValue(s[|s| - 1])
  }

  function DigitChar(d: nat): (c: char)
    requires d < 10
    ensures IsDigit(c) && DigitValue(c) == d
  {
    ('0' as int + d) as char
  }

  /** `String(n)` for a non-negative integer. */
  function NatToString(n: nat): (s: string)
    ensures |s| >= 1 && AllDigits(s)
    ensures DigitsValue(s) == n
    ensures n < 10 <==> |s| == 1
  {
    if n < 10 then [DigitChar(n)]
    else
      var s := NatToString(n / 10) + [DigitChar(n % 10)];
      assert s[..|s| - 1] == NatToString(n / 10);
      s
  }

  /** `String(n)` for any integer. */
  function IntToString(n: int): (s: string)
    ensures n >= 0 ==> s == NatToString(n)
    ensures n < 0 ==> s == "-" + NatToString(-n)
  {
    if n >= 0 then NatToString(n) else "-" + NatToString(-n)
  }

  /** `s.padStart(2, '0')`. */
  function PadStart2(s: string): (r: string)
    ensures |s| >= 2 ==> r == s
    ensures |s| < 2 ==> |r| == 2 && r[2 - |s|..] == s
  {
    if |s| >= 2 then s else if |s| == 1 then "0" + s else "00"
  }

  /** `String(n).padStart(2, '0')`. */
  function Pad2(n: int): (r: string)
    ensures 0 <= n < 100 ==> |r| == 2 && AllDigits(r) && DigitsValue(r) == n
  {
    var s := PadStart2(IntToString(n));
    if 0 <= n < 10 then
      assert s == "0" + NatToString(n) && s[..1] == "0";
      s
    else s
  }
}
