/**
 * The JavaScript string built-ins the core uses: `String.prototype.trim`,
 * `toLowerCase` (restricted to ASCII letters) and `length`, which counts
 * UTF-16 code units.
 */
module JsText {

  /**
   * The code points ECMAScript calls WhiteSpace or LineTerminator, as
   * inclusive ranges: U+0009 to U+000D, the space, no-break space, the other
   * Unicode space separators, the line and paragraph separators and the
   * byte order mark. Exactly what `trim` removes and what `\s` matches.
   */
  const SpaceRanges: seq<(char, char)> := [
    ('\t', '\r'), (' ', ' '), ('\U{00A0}', '\U{00A0}'), ('\U{1680}', '\U{1680}'),
    ('\U{2000}', '\U{200A}'), ('\U{2028}', '\U{2029}'), ('\U{202F}', '\U{202F}'),
    ('\U{205F}', '\U{205F}'), ('\U{3000}', '\U{3000}'), ('\U{FEFF}', '\U{FEFF}')
  ]

  predicate InRanges(c: char, ranges: seq<(char, char)>) {
    ranges != [] && (ranges[0].0 <= c <= ranges[0].1 || InRanges(c, ranges[1..]))
  }

  predicate IsSpace(c: char) {
    InRanges(c, SpaceRanges)
  }

  lemma {:induction false} InRangesWitness(c: char, ranges: seq<(char, char)>)
    requires InRanges(c, ranges)
    ensures exists k | 0 <= k < |ranges| :: ranges[k].0 <= c <= ranges[k].1
  {
    if !(ranges[0].0 <= c <= ranges[0].1) {
      InRangesWitness(c, ranges[1..]);
      var k :| 0 <= k < |ranges[1..]| && ranges[1..][k].0 <= c <= ranges[1..][k].1;
      assert ranges[k + 1] == ranges[1..][k];
    }
  }

  /** No printable ASCII character other than the space is whitespace. */
  lemma SpaceOutsidePrintable(c: char)
    ensures IsSpace(c) ==> c <= ' ' || '\U{00A0}' <= c
  {
    if IsSpace(c) {
      InRangesWitness(c, SpaceRanges);
    }
  }

  predicate AllSpace(s: string) {
    forall i | 0 <= i < |s| :: IsSpace(s[i])
  }

  predicate NoSpace(s: string) {
    forall i | 0 <= i < |s| :: !IsSpace(s[i])
  }

  /** No whitespace at either end. */
  predicate IsTrimmed(s: string) {
    s == [] || (!IsSpace(s[0]) && !IsSpace(s[|s| - 1]))
  }

  /** `s.indexOf(c)`, except that a missing `c` gives `|s|` rather than -1. */
  function IndexOf(s: string, c: char): (r: nat)
    ensures r <= |s|
    ensures r < |s| ==> s[r] == c
    ensures forall k | 0 <= k < r :: s[k] != c
  {
    if s == [] then 0
    else if s[0] == c then 0
    else 1 + IndexOf(s[1..], c)
  }

  /** Removes the leading whitespace run. */
  function TrimStart(s: string): (r: string)
    ensures |r| <= |s| && r == s[|s| - |r|..]
    ensures r == [] || !IsSpace(r[0])
  {
    if |s| > 0 && IsSpace(s[0]) then
      TrimStart(s[1..])
    else
      s
  }

  /** Removes the trailing whitespace run. */
  function TrimEnd(s: string): (r: string)
    ensures |r| <= |s| && r == s[..|r|]
    ensures r == [] || !IsSpace(r[|r| - 1])
  {
    if |s| > 0 && IsSpace(s[|s| - 1]) then
      TrimEnd(s[..|s| - 1])
    else
      s
  }

  /** What `TrimStart` removes is whitespace. */
  lemma {:induction false} TrimStartRemovesSpace(s: string)
    ensures AllSpace(s[..|s| - |TrimStart(s)|])
  {
    if |s| > 0 && IsSpace(s[0]) {
      TrimStartRemovesSpace(s[1..]);
      var k := |s| - |TrimStart(s)|;
      assert s[..k] == [s[0]] + s[1..][..k - 1];
    }
  }

  /** What `TrimEnd` removes is whitespace. */
  lemma {:induction false} TrimEndRemovesSpace(s: string)
    ensures AllSpace(s[|TrimEnd(s)|..])
  {
    if |s| > 0 && IsSpace(s[|s| - 1]) {
      TrimEndRemovesSpace(s[..|s| - 1]);
      var k := |TrimEnd(s)|;
      assert s[k..] == s[..|s| - 1][k..] + [s[|s| - 1]];
    }
  }

  /** `String.prototype.trim`: the input with whitespace removed at both ends. */
  function Trim(s: string): (r: string)
    ensures IsTrimmed(r)
    ensures |r| <= |s|
  {
    TrimEnd(TrimStart(s))
  }

  /** The trim is the infix of the input left between two whitespace-only runs. */
  lemma TrimIsInfix(s: string) returns (i: nat, j: nat)
    ensures i <= j <= |s| && Trim(s) == s[i..j]
    ensures AllSpace(s[..i]) && AllSpace(s[j..])
  {
    var t := TrimStart(s);
    var r := TrimEnd(t);
    TrimStartRemovesSpace(s);
    TrimEndRemovesSpace(t);
    i, j := |s| - |t|, |s| - |t| + |r|;
    assert s[j..] == t[|r|..];
  }

  /** A string that is already trimmed is its own trim. */
  lemma TrimOfTrimmed(s: string)
    requires IsTrimmed(s)
    ensures Trim(s) == s
  {
  }

  /** Trimming is idempotent. */
  lemma TrimIdempotent(s: string)
    ensures Trim(Trim(s)) == Trim(s)
  {
    TrimOfTrimmed(Trim(s));
  }

  /** Trimming leaves nothing exactly when the input is whitespace only. */
  lemma TrimEmptyIffAllSpace(s: string)
    ensures Trim(s) == [] <==> AllSpace(s)
  {
    var i, j := TrimIsInfix(s);
    if Trim(s) == [] {
      assert s == s[..i] + s[j..];
    }
  }

  predicate IsUpper(c: char) {
    'A' <= c <= 'Z'
  }

  predicate NoUpper(s: string) {
    forall i | 0 <= i < |s| :: !IsUpper(s[i])
  }

  function LowerChar(c: char): (d: char)
    ensures !IsUpper(d)
    ensures IsSpace(d) <==> IsSpace(c)
    ensures !IsUpper(c) ==> d == c
  {
    if IsUpper(c) then
      var d := (c as int + 32) as char;
      SpaceOutsidePrintable(c);
      SpaceOutsidePrintable(d);
      d
    else
      c
  }

  /** `toLowerCase`, on the ASCII letters. */
  function Lower(s: string): (r: string)
    ensures |r| == |s| && NoUpper(r)
    ensures forall i | 0 <= i < |s| :: IsSpace(r[i]) <==> IsSpace(s[i])
  {
    seq(|s|, i requires 0 <= i < |s| => LowerChar(s[i]))
  }

  /** Lowering a string without upper-case letters changes nothing. */
  lemma LowerOfLower(s: string)
    requires NoUpper(s)
    ensures Lower(s) == s
  {
  }

  lemma {:induction false} TrimStartLower(s: string)
    ensures TrimStart(Lower(s)) == Lower(TrimStart(s))
  {
    if |s| > 0 && IsSpace(s[0]) {
      assert Lower(s)[1..] == Lower(s[1..]);
      TrimStartLower(s[1..]);
    }
  }

  lemma {:induction false} TrimEndLower(s: string)
    ensures TrimEnd(Lower(s)) == Lower(TrimEnd(s))
  {
    if |s| > 0 && IsSpace(s[|s| - 1]) {
      assert Lower(s)[..|s| - 1] == Lower(s[..|s| - 1]);
      TrimEndLower(s[..|s| - 1]);
    }
  }

  /**
   * Trimming and lowering commute, so the order in which Mongoose applies a
   * field's `trim` and `lowercase` setters does not matter.
   */
  lemma LowerTrimCommute(s: string)
    ensures Trim(Lower(s)) == Lower(Trim(s))
  {
    TrimStartLower(s);
    TrimEndLower(TrimStart(s));
  }

  /** A trimmed string stays trimmed when lowered. */
  lemma LowerKeepsTrimmed(s: string)
    requires IsTrimmed(s)
    ensures IsTrimmed(Lower(s))
  {
  }

  /**
   * A path's `trim: true` and `lowercase: true` setters together (the event
   * slug and the booking email): the text trimmed, then lowered; the order
   * does not matter (`LowerTrimCommute`).
   */
  function TrimLowercase(s: string): (r: string)
    ensures IsTrimmed(r) && NoUpper(r)
    ensures |r| <= |s|
  {
    LowerKeepsTrimmed(Trim(s));
    Lower(Trim(s))
  }

  /** A text already trimmed and without upper-case letters is its own normal form. */
  lemma TrimLowercaseOfNormal(s: string)
    requires IsTrimmed(s) && NoUpper(s)
    ensures TrimLowercase(s) == s
  {
    TrimOfTrimmed(s);
    LowerOfLower(s);
  }

  /** Applying the setters to their own output changes nothing. */
  lemma TrimLowercaseIdempotent(s: string)
    ensures TrimLowercase(TrimLowercase(s)) == TrimLowercase(s)
  {
    TrimLowercaseOfNormal(TrimLowercase(s));
  }

  /** `length` of a JavaScript string: code points above U+FFFF take two UTF-16 units. */
  function Utf16Length(s: string): (n: nat)
    ensures |s| <= n <= 2 * |s|
  {
    if s == [] then 0 else (if s[0] as int > 0xFFFF then 2 else 1) + Utf16Length(s[1..])
  }
}
