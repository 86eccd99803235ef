/**
 * Input sanitising helpers: `sanitizeString` and `safeParseArrayString`.
 * JSON.parse is not re-implemented: its outcome is an input (a function from
 * the text to a `ParseOutcome`), and every property holds whatever it returns.
 */
module Utils {
  import opened JsText

  /**
   * JavaScript values as far as `sanitizeString` can tell them apart. A
   * number carries its value and the text `Number.prototype.toString` gives
   * for it, which is not re-derived here. An object is only ever turned into
   * the text "[object Object]", so its members play no part.
   */
  datatype JsValue =
    | Undefined
    | Null
    | Bool(b: bool)
    | Number(value: real, text: string)
    | NaN
    | Str(s: string)
    | Array(elements: seq<JsValue>)
    | Object

  /** What `JSON.parse` did with a text: threw, or produced a JSON value. */
  datatype ParseOutcome = ParseFailed | Parsed(value: JsValue)

  /** JavaScript truthiness: `undefined`, `null`, `false`, `0`, `NaN` and `''` are falsy. */
  predicate Truthy(v: JsValue) {
    match v
    case Undefined => false
    case Null => false
    case Bool(b) => b
    case Number(x, _) => x != 0.0
    case NaN => false
    case Str(s) => s != ""
    case Array(_) => true
    case Object => true
  }

  /** `String(v)`: an array is joined with commas (`Array.prototype.toString`). */
  function ToJsString(v: JsValue): string
    decreases v
  {
    match v
    case Undefined => "undefined"
    case Null => "null"
    case Bool(b) => if b then "true" else "false"
    case Number(_, text) => text
    case NaN => "NaN"
    case Str(s) => s
    case Array(elements) => JoinElements(elements)
    case Object => "[object Object]"
  }

  /** `elements.join(',')`, where `null` and `undefined` elements become the empty text. */
  function JoinElements(elements: seq<JsValue>): string
    decreases elements
  {
    if elements == [] then ""
    else
      var head := if elements[0].Null? || elements[0].Undefined? then "" else ToJsString(elements[0]);
      if |elements| == 1 then head else head + "," + JoinElements(elements[1..])
  }

  /** `sanitizeString(value)`: `String(value || '').trim()`. */
  function SanitizeString(v: JsValue): (r: string)
    ensures IsTrimmed(r)
    ensures !Truthy(v) ==> r == ""
  {
    Trim(if Truthy(v) then ToJsString(v) else "")
  }

  /** On a string, `sanitizeString` is exactly `trim` (the empty string included). */
  lemma SanitizeStringOfString(s: string)
    ensures SanitizeString(Str(s)) == Trim(s)
  {
  }

  /** Sanitising the output of `sanitizeString` again changes nothing. */
  lemma SanitizeStringIdempotent(v: JsValue)
    ensures SanitizeString(Str(SanitizeString(v))) == SanitizeString(v)
  {
    var s := SanitizeString(v);
    SanitizeStringOfString(s);
    TrimOfTrimmed(s);
  }

  /** `.map(sanitizeString)`. */
  function SanitizeAll(elements: seq<JsValue>): (r: seq<string>)
    ensures |r| == |elements|
    ensures forall k | 0 <= k < |r| :: IsTrimmed(r[k])
  {
    seq(|elements|, i requires 0 <= i < |elements| => SanitizeString(elements[i]))
  }

  /** `.filter(s => s.length > 0)`. */
  function DropEmpty(texts: seq<string>): (r: seq<string>)
    ensures |r| <= |texts|
    ensures forall k | 0 <= k < |r| :: |r[k]| > 0
    ensures (forall i | 0 <= i < |texts| :: IsTrimmed(texts[i])) ==> forall k | 0 <= k < |r| :: IsTrimmed(r[k])
  {
    if texts == [] then []
    else (if |texts[0]| > 0 then [texts[0]] else []) + DropEmpty(texts[1..])
  }

  /** The `.map(sanitizeString).filter(s => s.length > 0)` chain. */
  function Clean(elements: seq<JsValue>): (r: seq<string>)
    ensures |r| <= |elements|
    ensures forall k | 0 <= k < |r| :: r[k] != "" && IsTrimmed(r[k])
  {
    DropEmpty(SanitizeAll(elements))
  }

  /** Dropping empty texts distributes over concatenation. */
  lemma {:induction false} DropEmptyAppend(a: seq<string>, b: seq<string>)
    ensures DropEmpty(a + b) == DropEmpty(a) + DropEmpty(b)
  {
    if a == [] {
      assert a + b == b;
    } else {
      assert (a + b)[1..] == a[1..] + b;
      DropEmptyAppend(a[1..], b);
    }
  }

  /** Cleaning distributes over concatenation. */
  lemma CleanAppend(a: seq<JsValue>, b: seq<JsValue>)
    ensures Clean(a + b) == Clean(a) + Clean(b)
  {
    var whole, left, right := SanitizeAll(a + b), SanitizeAll(a), SanitizeAll(b);
    forall i | 0 <= i < |a + b|
      ensures whole[i] == (left + right)[i]
    {
      if i < |a| {
        assert (a + b)[i] == a[i];
      } else {
        assert (a + b)[i] == b[i - |a|];
      }
    }
    assert whole == left + right;
    DropEmptyAppend(SanitizeAll(a), SanitizeAll(b));
  }

  predicate Increasing(p: seq<nat>) {
    forall k, l | 0 <= k < l < |p| :: p[k] < p[l]
  }

  function Shift(p: seq<nat>): (q: seq<nat>)
    ensures |q| == |p| && forall k | 0 <= k < |p| :: q[k] == p[k] + 1
  {
    seq(|p|, k requires 0 <= k < |p| => p[k] + 1)
  }

  /** The indices DropEmpty keeps, in order. */
  ghost function Kept(texts: seq<string>): (p: seq<nat>)
  {
    if texts == [] then [] else (if |texts[0]| > 0 then [0] else []) + Shift(Kept(texts[1..]))
  }

  lemma {:induction false} KeptPicks(texts: seq<string>)
    ensures |Kept(texts)| == |DropEmpty(texts)|
    ensures forall k | 0 <= k < |Kept(texts)| :: Kept(texts)[k] < |texts| && DropEmpty(texts)[k] == texts[Kept(texts)[k]]
  {
    if texts != [] {
      KeptPicks(texts[1..]);
    }
  }

  lemma {:induction false} KeptIncreasing(texts: seq<string>)
    ensures Increasing(Kept(texts))
  {
    if texts != [] {
      KeptIncreasing(texts[1..]);
    }
  }

  lemma {:induction false} KeptComplete(texts: seq<string>)
    ensures forall i | 0 <= i < |texts| && i !in Kept(texts) :: |texts[i]| == 0
  {
    if texts != [] {
      KeptComplete(texts[1..]);
      var rest := Kept(texts[1..]);
      forall i | 0 < i < |texts| && i !in Kept(texts) ensures |texts[i]| == 0 {
        assert texts[i] == texts[1..][i - 1];
      }
    }
  }

  /**
   * Dropping empty texts keeps the others in order: `positions` lists, in
   * increasing order, the indices kept, and every index left out holds "".
   */
  lemma DropEmptySelects(texts: seq<string>) returns (positions: seq<nat>)
    ensures |positions| == |DropEmpty(texts)|
    ensures forall k | 0 <= k < |positions| :: positions[k] < |texts| && DropEmpty(texts)[k] == texts[positions[k]]
    ensures Increasing(positions)
    ensures forall i | 0 <= i < |texts| && i !in positions :: |texts[i]| == 0
  {
    positions := Kept(texts);
    KeptPicks(texts);
    KeptIncreasing(texts);
    KeptComplete(texts);
  }

  /**
   * The cleaned list is the order-preserving selection of the sanitised
   * elements that are not empty: `positions` lists, in increasing order,
   * the indices kept, and every element left out sanitises to "".
   */
  lemma CleanSelects(elements: seq<JsValue>) returns (positions: seq<nat>)
    ensures |positions| == |Clean(elements)|
    ensures forall k | 0 <= k < |positions| ::
              positions[k] < |elements| && Clean(elements)[k] == SanitizeString(elements[positions[k]])
    ensures Increasing(positions)
    ensures forall i | 0 <= i < |elements| && i !in positions :: SanitizeString(elements[i]) == ""
  {
    positions := DropEmptySelects(SanitizeAll(elements));
  }

  /** A text is kept exactly when it is not empty and occurs in the input. */
  lemma {:induction false} DropEmptyMembership(texts: seq<string>, s: string)
    ensures s in DropEmpty(texts) <==> |s| > 0 && s in texts
  {
    if texts != [] {
      DropEmptyMembership(texts[1..], s);
      assert texts == [texts[0]] + texts[1..];
    }
  }

  /** A text is in the cleaned list exactly when it is the non-empty sanitised form of some element. */
  lemma CleanMembership(elements: seq<JsValue>, s: string)
    ensures s in Clean(elements) <==> s != "" && exists i | 0 <= i < |elements| :: SanitizeString(elements[i]) == s
  {
    var texts := SanitizeAll(elements);
    DropEmptyMembership(texts, s);
    if s in texts {
      var i :| 0 <= i < |texts| && texts[i] == s;
      assert SanitizeString(elements[i]) == s;
    }
    if exists i | 0 <= i < |elements| :: SanitizeString(elements[i]) == s {
      var i :| 0 <= i < |elements| && SanitizeString(elements[i]) == s;
      assert texts[i] == s;
    }
  }

  /**
   * `safeParseArrayString(input)`: a non-string or blank input gives `[]`;
   * otherwise the text is parsed, and anything but an array, or a failed
   * parse, gives `[]`; an array gives its cleaned elements.
   */
  function SafeParseArrayString(input: JsValue, jsonParse: string -> ParseOutcome): (r: seq<string>)
    ensures !input.Str? ==> r == []
    ensures input.Str? && AllSpace(input.s) ==> r == []
    ensures input.Str? && jsonParse(input.s).ParseFailed? ==> r == []
    ensures input.Str? && jsonParse(input.s).Parsed? && !jsonParse(input.s).value.Array? ==> r == []
    ensures input.Str? && !AllSpace(input.s) && jsonParse(input.s).Parsed? && jsonParse(input.s).value.Array? ==>
              r == Clean(jsonParse(input.s).value.elements)
    ensures forall k | 0 <= k < |r| :: r[k] != "" && IsTrimmed(r[k])
  {
    TrimEmptyIffAllSpace(if input.Str? then input.s else "");
    if !input.Str? || |Trim(input.s)| == 0 then []
    else
      match jsonParse(input.s)
      case ParseFailed => []
      case Parsed(Array(elements)) => Clean(elements)
      case Parsed(_) => []
  }
}
