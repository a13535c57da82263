/**
 * The names the route derives: the upload's extension, the staged input
 * `input-<Date.now()>.<ext>`, and the table whisper writes beside it,
 * `<staged basename without extension>.tsv`.
 */
module Naming {
  import opened Wrappers
  import opened JsString

  /** The character for a decimal digit. */
  function DigitChar(d: nat): (c: char)
    requires d < 10
    ensures '0' <= c <= '9'
  {
    ('0' as int + d) as char
  }

  /** `${n}` for a non-negative integer: its decimal digits, no leading zero. */
  function Decimal(n: nat): (s: string)
    ensures |s| >= 1
    ensures forall i :: 0 <= i < |s| ==> '0' <= s[i] <= '9'
    ensures |s| > 1 ==> s[0] != '0'
    decreases n
  {
    if n < 10 then [DigitChar(n)] else Decimal(n / 10) + [DigitChar(n % 10)]
  }

  /** The number a string of decimal digits denotes. */
  function DecimalValue(s: string): nat
    requires forall i :: 0 <= i < |s| ==> '0' <= s[i] <= '9'
  {
    if s == [] then 0
    else DecimalValue(s[..|s| - 1]) * 10 + (s[|s| - 1] as int - '0' as int)
  }

  /** Rendering a timestamp in decimal loses nothing. */
  lemma {:induction false} DecimalRoundTrip(n: nat)
    ensures DecimalValue(Decimal(n)) == n
    decreases n
  {
    if n >= 10 {
      DecimalRoundTrip(n / 10);
      var s := Decimal(n);
      assert s[..|s| - 1] == Decimal(n / 10);
    }
  }

  /** The fallback extension when the upload's name ends without one. */
  const DefaultExt: string := "mp3"

  /** `file.name.split('.').pop() || 'mp3'`. */
  function Ext(name: string): (ext: string)
    ensures ext != [] && '.' !in ext
  {
    var pieces := Split(name, '.');
    var last := pieces[|pieces| - 1];
    if last == [] then DefaultExt else last
  }

  /** A name without a dot is its own extension (the empty name falls back to mp3). */
  lemma ExtOfDotless(name: string)
    requires '.' !in name
    ensures Ext(name) == if name == [] then DefaultExt else name
  {
    SplitNoSep(name, '.');
  }

  /**
   * The extension is whatever follows the last dot, and mp3 only when nothing
   * does.
   */
  lemma ExtAfterLastDot(stem: string, after: string)
    requires '.' !in after
    ensures Ext(stem + "." + after) == if after == [] then DefaultExt else after
  {
    SplitConcat(stem, after, '.');
    SplitNoSep(after, '.');
  }

  /** The staged upload's name, `input-${Date.now()}.${ext}`. */
  function StagedName(now: nat, ext: string): string {
    "input-" + Decimal(now) + "." + ext
  }

  /**
   * The staged name encodes the clock value: after the prefix come digits
   * that denote `now`, then a dot and the extension.
   */
  lemma StagedNameEncodesClock(now: nat, ext: string)
    ensures
      var name := StagedName(now, ext);
      && |name| > 7 + |ext| && name[..6] == "input-"
      && EndsWith(name, "." + ext)
      && var digits := name[6..|name| - |ext| - 1];
      && (forall i :: 0 <= i < |digits| ==> '0' <= digits[i] <= '9')
      && DecimalValue(digits) == now
  {
    var name := StagedName(now, ext);
    DecimalRoundTrip(now);
    assert name[6..|name| - |ext| - 1] == Decimal(now);
    assert name[|name| - |ext| - 1..] == "." + ext;
  }

  /** Position of the last dot, if any. */
  function LastDot(s: string): (k: Option<nat>)
    ensures k.None? <==> '.' !in s
    ensures k.Some? ==> k.value < |s| && s[k.value] == '.'
    ensures k.Some? ==> forall j :: k.value < j < |s| ==> s[j] != '.'
    decreases |s|
  {
    if s == [] then None
    else if s[|s| - 1] == '.' then Some(|s| - 1)
    else LastDot(s[..|s| - 1])
  }

  /**
   * `path.extname` of a name without directory separators: from the last dot
   * on, except that a name whose only dot leads it, and the name "..", have
   * none.
   */
  function ExtName(base: string): (e: string)
    ensures e == [] || (e[0] == '.' && EndsWith(base, e))
  {
    match LastDot(base)
    case None => []
    case Some(k) => if k == 0 || base == ".." then [] else base[k..]
  }

  /** `path.basename(p, path.extname(p))` for a name without directory separators. */
  function Stem(base: string): string {
    base[..|base| - |ExtName(base)|]
  }

  /** `${fileName}.tsv`: the table whisper writes for the staged input. */
  function TsvName(staged: string): string {
    Stem(staged) + ".tsv"
  }

  /**
   * The table is named after the staged input with its extension, if any,
   * replaced by `.tsv`.
   */
  lemma TsvNameReplacesExt(staged: string)
    ensures
      var name := TsvName(staged);
      EndsWith(name, ".tsv") && staged == name[..|name| - 4] + ExtName(staged)
  {
    var name := TsvName(staged);
    assert staged == Stem(staged) + ExtName(staged);
    assert name[..|name| - 4] == Stem(staged);
  }

  /**
   * For a dot-free extension, as `Ext` always yields, the staged input's
   * extension is exactly the one chosen, and the table read back is
   * `input-<n>.tsv`.
   */
  lemma StagedTsvName(now: nat, ext: string)
    requires '.' !in ext
    ensures ExtName(StagedName(now, ext)) == "." + ext
    ensures TsvName(StagedName(now, ext)) == "input-" + Decimal(now) + ".tsv"
  {
    var stem := "input-" + Decimal(now);
    var staged := StagedName(now, ext);
    assert staged == stem + "." + ext;
    assert staged[|stem|] == '.';
    forall j | |stem| < j < |staged|
      ensures staged[j] != '.'
    {
      assert staged[j] == ext[j - |stem| - 1];
    }
    assert LastDot(staged) == Some(|stem|) by {
      var k := LastDot(staged);
      assert k.Some?;
    }
    assert staged == stem + ("." + ext);
    assert staged[|stem|..] == "." + ext;
    assert staged[..|stem|] == stem;
  }

  /** The whole derivation from the uploaded name: the table is named after the staged input. */
  lemma UploadTsvName(now: nat, uploadName: string)
    ensures TsvName(StagedName(now, Ext(uploadName))) == "input-" + Decimal(now) + ".tsv"
  {
    StagedTsvName(now, Ext(uploadName));
  }
}
