/**
 * The parts of JavaScript's `String.prototype` that the analysis route relies
 * on: `split` with a one-character separator, `Array.prototype.join`, `trim`,
 * and the character class `\s`.
 */
module JsString {

  /**
   * ECMAScript WhiteSpace and LineTerminator code points: exactly what
   * `trim()` strips and what the regular-expression class `\s` matches.
   */
  predicate IsWs(c: char) {
    || c == '\t' || c == '\n' || c == '\U{000B}' || c == '\U{000C}' || c == '\r'
    || c == ' ' || c == '\U{00A0}' || c == '\U{1680}'
    || ('\U{2000}' <= c <= '\U{200A}')
    || c == '\U{2028}' || c == '\U{2029}' || c == '\U{202F}' || c == '\U{205F}'
    || c == '\U{3000}' || c == '\U{FEFF}'
  }

  /** Number of occurrences of `d` in `s`. */
  function Count(s: string, d: char): nat {
    if s == [] then 0 else (if s[0] == d then 1 else 0) + Count(s[1..], d)
  }

  /**
   * `s.split(d)` for a one-character separator: the maximal `d`-free pieces
   * between separators, so there is always at least one piece.
   */
  function Split(s: string, d: char): (parts: seq<string>)
    ensures |parts| == Count(s, d) + 1
    ensures forall i :: 0 <= i < |parts| ==> d !in parts[i]
    decreases |s|
  {
    if s == [] then [[]]
    else
      var rest := Split(s[1..], d);
      if s[0] == d then [[]] + rest
      else [[s[0]] + rest[0]] + rest[1..]
  }

  /** `parts.join(sep)`: the pieces with `sep` between neighbours; it starts with the first piece. */
  function Join(parts: seq<string>, sep: string): (r: string)
    ensures |parts| >= 1 ==> |r| >= |parts[0]| && r[..|parts[0]|] == parts[0]
  {
    if |parts| == 0 then []
    else if |parts| == 1 then parts[0]
    else
      var rest := Join(parts[1..], sep);
      assert parts[0] + sep + rest == parts[0] + (sep + rest);
      parts[0] + sep + rest
  }

  /** Growing the first piece grows the joined string at its front. */
  lemma {:induction false} JoinConsHead(x: string, y: string, z: seq<string>, sep: string)
    ensures Join([x + y] + z, sep) == x + Join([y] + z, sep)
  {
    if |z| == 0 {
      assert [x + y] + z == [x + y];
      assert [y] + z == [y];
    } else {
      assert ([x + y] + z)[1..] == z;
      assert ([y] + z)[1..] == z;
    }
  }

  /** A character absent from the string is absent from every piece. */
  lemma {:induction false} SplitAvoids(s: string, d: char, x: char)
    ensures x !in s ==> forall i :: 0 <= i < |Split(s, d)| ==> x !in Split(s, d)[i]
    decreases |s|
  {
    if s != [] {
      SplitAvoids(s[1..], d, x);
    }
  }

  /** Joining the pieces again with the separator gives back the string. */
  lemma {:induction false} JoinSplit(s: string, d: char)
    ensures Join(Split(s, d), [d]) == s
    decreases |s|
  {
    if s != [] {
      var rest := Split(s[1..], d);
      JoinSplit(s[1..], d);
      if s[0] == d {
        assert ([[]] + rest)[1..] == rest;
        assert Join([[]] + rest, [d]) == [] + [d] + Join(rest, [d]);
        assert s == [d] + s[1..];
      } else {
        assert [[s[0]] + rest[0]] + rest[1..] == [[s[0]] + rest[0]] + rest[1..];
        assert rest == [rest[0]] + rest[1..];
        JoinConsHead([s[0]], rest[0], rest[1..], [d]);
        assert s == [s[0]] + s[1..];
      }
    }
  }

  /** A string without the separator is a single piece. */
  lemma {:induction false} SplitNoSep(s: string, d: char)
    requires d !in s
    ensures Split(s, d) == [s]
    decreases |s|
  {
    if s != [] {
      SplitNoSep(s[1..], d);
      assert [s[0]] + s[1..] == s;
    }
  }

  /** Splitting distributes over a separator placed between two strings. */
  /** One step of `split`: the first character either ends the first piece or joins it. */
  lemma {:induction false} SplitCons(c: char, t: string, d: char)
    ensures Split([c] + t, d) ==
      if c == d then [[]] + Split(t, d) else [[c] + Split(t, d)[0]] + Split(t, d)[1..]
  {
    assert ([c] + t)[0] == c && ([c] + t)[1..] == t;
  }

  lemma {:induction false} SplitConcat(a: string, b: string, d: char)
    ensures Split(a + [d] + b, d) == Split(a, d) + Split(b, d)
    decreases |a|
  {
    if a == [] {
      assert a + [d] + b == [d] + b;
      SplitCons(d, b, d);
    } else {
      SplitConcat(a[1..], b, d);
      SplitConcatCons(a[0], a[1..], b, d);
      assert [a[0]] + a[1..] == a;
    }
  }

  /** The step of `SplitConcat`: from the tail of `a` to all of `a`. */
  lemma {:induction false} SplitConcatCons(c: char, a: string, b: string, d: char)
    requires Split(a + [d] + b, d) == Split(a, d) + Split(b, d)
    ensures Split([c] + a + [d] + b, d) == Split([c] + a, d) + Split(b, d)
  {
    var t := a + [d] + b;
    assert [c] + a + [d] + b == [c] + t;
    SplitCons(c, t, d);
    SplitCons(c, a, d);
    PiecesCons(c, d, Split(a, d), Split(b, d));
  }

  /** `SplitCons` on a list of pieces followed by more pieces. */
  lemma PiecesCons(c: char, d: char, ra: seq<string>, sb: seq<string>)
    requires |ra| >= 1
    ensures
      var rest := ra + sb;
      (if c == d then [[]] + rest else [[c] + rest[0]] + rest[1..])
        == (if c == d then [[]] + ra else [[c] + ra[0]] + ra[1..]) + sb
  {
    if c == d {
      assert [[]] + (ra + sb) == ([[]] + ra) + sb;
    } else {
      var head: string := [c] + ra[0];
      assert (ra + sb)[0] == ra[0] && (ra + sb)[1..] == ra[1..] + sb;
      assert [head] + (ra[1..] + sb) == ([head] + ra[1..]) + sb;
    }
  }

  /** Splitting a join of separator-free pieces recovers the pieces. */
  lemma {:induction false} SplitJoin(parts: seq<string>, d: char)
    requires |parts| >= 1
    requires forall i :: 0 <= i < |parts| ==> d !in parts[i]
    ensures Split(Join(parts, [d]), d) == parts
    decreases |parts|
  {
    if |parts| == 1 {
      SplitNoSep(parts[0], d);
    } else {
      SplitJoin(parts[1..], d);
      SplitNoSep(parts[0], d);
      SplitConcat(parts[0], Join(parts[1..], [d]), d);
      assert parts == [parts[0]] + parts[1..];
    }
  }

  /** Joining two non-empty lists is joining each and gluing with the separator. */
  lemma {:induction false} JoinAppend(a: seq<string>, b: seq<string>, sep: string)
    requires |a| >= 1 && |b| >= 1
    ensures Join(a + b, sep) == Join(a, sep) + sep + Join(b, sep)
    decreases |a|
  {
    if |a| == 1 {
      assert (a + b)[1..] == b;
    } else {
      assert (a + b)[1..] == a[1..] + b;
      JoinAppend(a[1..], b, sep);
    }
  }

  /** `s.trimStart()`: drops the leading whitespace, and only that. */
  function TrimStart(s: string): (r: string)
    ensures |r| <= |s| && r == s[|s| - |r|..]
    ensures forall i :: 0 <= i < |s| - |r| ==> IsWs(s[i])
    ensures r != [] ==> !IsWs(r[0])
    decreases |s|
  {
    if s != [] && IsWs(s[0]) then TrimStart(s[1..]) else s
  }

  /** `s.trimEnd()`: drops the trailing whitespace, and only that. */
  function TrimEnd(s: string): (r: string)
    ensures |r| <= |s| && r == s[..|r|]
    ensures forall i :: |r| <= i < |s| ==> IsWs(s[i])
    ensures r != [] ==> !IsWs(r[|r| - 1])
    decreases |s|
  {
    if s != [] && IsWs(s[|s| - 1]) then TrimEnd(s[..|s| - 1]) else s
  }

  /** `s.trim()`: what remains neither starts nor ends with whitespace. */
  function Trim(s: string): (r: string)
    ensures |r| <= |s|
    ensures r != [] ==> !IsWs(r[0]) && !IsWs(r[|r| - 1])
  {
    var t := TrimStart(s);
    var r := TrimEnd(t);
    assert r != [] ==> r[0] == t[0];
    r
  }

  /** `s.endsWith(suffix)`. */
  predicate EndsWith(s: string, suffix: string) {
    |suffix| <= |s| && s[|s| - |suffix|..] == suffix
  }

  /** Every character is whitespace (the empty string included). */
  predicate IsBlank(s: string) {
    forall i :: 0 <= i < |s| ==> IsWs(s[i])
  }

  /** `!s.trim()` holds, the trimmed string being empty and so falsy, exactly for blank strings. */
  lemma TrimEmptyIffBlank(s: string)
    ensures Trim(s) == [] <==> IsBlank(s)
  {
    var t := TrimStart(s);
    var off := |s| - |t|;
    if Trim(s) == [] {
      assert t == [];
    } else if t != [] {
      assert !IsWs(s[off]);
    }
  }
}
