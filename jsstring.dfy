/**
 * The handful of JavaScript string operations the bot relies on, stated over
 * `string` (a sequence of characters): `trim`, `split(/[ \n]/)[0]`,
 * `substring(i)`, `startsWith`, `toLowerCase` and `join`.
 */
module JsString {

  datatype Option<T> = None | Some(value: T)

  /** The characters JavaScript's `\s` class and `String.prototype.trim` treat
      as white space: WhiteSpace and LineTerminator of ECMAScript. */
  predicate IsSpace(c: char) {
    c == '\t' || c == '\n' || c == '\U{000B}' || c == '\U{000C}' || c == '\r' ||
    c == ' ' || c == '\U{00A0}' || c == '\U{1680}' || ('\U{2000}' <= c <= '\U{200A}') ||
    c == '\U{2028}' || c == '\U{2029}' || c == '\U{202F}' || c == '\U{205F}' ||
    c == '\U{3000}' || c == '\U{FEFF}'
  }

  /** The two separators of the regular expression `/[ \n]/`. */
  predicate IsTokenBreak(c: char) {
    c == ' ' || c == '\n'
  }

  /** Neither end of `s` is white space: what `trim` leaves behind. */
  predicate IsTrimmed(s: string) {
    s == [] || (!IsSpace(s[0]) && !IsSpace(s[|s| - 1]))
  }

  predicate AllSpace(s: string) {
    forall i :: 0 <= i < |s| ==> IsSpace(s[i])
  }

  predicate NoTokenBreak(s: string) {
    forall i :: 0 <= i < |s| ==> !IsTokenBreak(s[i])
  }

  /** `trimStart`: drops the leading white space and nothing else. */
  function TrimStart(s: string): (r: string)
    ensures |r| <= |s| && r == s[|s| - |r|..]
    ensures AllSpace(s[..|s| - |r|])
    ensures r == [] || !IsSpace(r[0])
  {
    if s != [] && IsSpace(s[0]) then TrimStart(s[1..]) else s
  }

  /** `trimEnd`: drops the trailing white space and nothing else. */
  function TrimEnd(s: string): (r: string)
    ensures |r| <= |s| && r == s[..|r|]
    ensures AllSpace(s[|r|..])
    ensures r == [] || !IsSpace(r[|r| - 1])
  {
    if s != [] && IsSpace(s[|s| - 1]) then TrimEnd(s[..|s| - 1]) else s
  }

  /** `trim`: the longest substring with no white space at either end. */
  function Trim(s: string): (r: string)
    ensures IsTrimmed(r)
  {
    TrimEnd(TrimStart(s))
  }

  /** `trim` removes white space at the ends and nothing else. */
  lemma {:induction false} TrimIsInfix(s: string) returns (i: nat, j: nat)
    ensures i <= j <= |s| && Trim(s) == s[i..j]
    ensures AllSpace(s[..i]) && AllSpace(s[j..])
  {
    var t := TrimStart(s);
    var r := TrimEnd(t);
    i, j := |s| - |t|, |s| - |t| + |r|;
    assert r == s[i..j];
    assert s[j..] == t[|r|..];
  }

  /** A string without separators keeps none after `trim`. */
  lemma {:induction false} TrimKeepsNoTokenBreak(s: string)
    requires NoTokenBreak(s)
    ensures NoTokenBreak(Trim(s))
  {
    var i, j := TrimIsInfix(s);
    assert forall k :: 0 <= k < j - i ==> Trim(s)[k] == s[i + k];
  }

  /** `s.split(/[ \n]/)[0]`: everything before the first space or newline. */
  function FirstToken(s: string): (r: string)
    ensures |r| <= |s| && r == s[..|r|]
    ensures NoTokenBreak(r)
    ensures |r| < |s| ==> IsTokenBreak(s[|r|])
  {
    if s == [] || IsTokenBreak(s[0]) then [] else [s[0]] + FirstToken(s[1..])
  }

  /** `s.substring(i)` for `i >= 0`: the empty string once `i` passes the end. */
  function From(s: string, i: nat): (r: string)
    ensures i <= |s| ==> r == s[i..]
    ensures i >= |s| ==> r == []
  {
    if i <= |s| then s[i..] else []
  }

  predicate StartsWith(s: string, prefix: string) {
    |prefix| <= |s| && s[..|prefix|] == prefix
  }

  function LowerChar(c: char): char {
    if 'A' <= c <= 'Z' then (c as int + 32) as char else c
  }

  /** `toLowerCase`, restricted to the ASCII letters. */
  function ToLower(s: string): (r: string)
    ensures |r| == |s|
    ensures forall i :: 0 <= i < |s| ==> r[i] == LowerChar(s[i])
  {
    if s == [] then [] else [LowerChar(s[0])] + ToLower(s[1..])
  }

  /** `parts.join(sep)`. */
  function Join(parts: seq<string>, sep: string): string {
    if |parts| == 0 then []
    else if |parts| == 1 then parts[0]
    else parts[0] + sep + Join(parts[1..], sep)
  }

  // ---------------------------------------------------------------------
  // Lemmas used by the command parsers.

  lemma {:induction false} TrimStartOfSpaceFree(s: string)
    requires s == [] || !IsSpace(s[0])
    ensures TrimStart(s) == s
  {
  }

  lemma {:induction false} TrimEndOfSpaceFree(s: string)
    requires s == [] || !IsSpace(s[|s| - 1])
    ensures TrimEnd(s) == s
  {
  }

  /** Trimming a string that is already trimmed changes nothing. */
  lemma {:induction false} TrimOfTrimmed(s: string)
    requires IsTrimmed(s)
    ensures Trim(s) == s
  {
    TrimStartOfSpaceFree(s);
    TrimEndOfSpaceFree(s);
  }

  /** Leading white space does not survive `trim`. */
  lemma {:induction false} TrimSkipsLeadingSpace(w: string, s: string)
    requires AllSpace(w)
    ensures Trim(w + s) == Trim(s)
  {
    TrimStartSkipsSpace(w, s);
  }

  lemma {:induction false} TrimStartSkipsSpace(w: string, s: string)
    requires AllSpace(w)
    ensures TrimStart(w + s) == TrimStart(s)
  {
    if w != [] {
      assert (w + s)[0] == w[0] && IsSpace(w[0]);
      assert (w + s)[1..] == w[1..] + s;
      TrimStartSkipsSpace(w[1..], s);
    } else {
      assert w + s == s;
    }
  }

  /** The first token of `a + [c] + b` is `a` when `a` holds no separator and
      `c` is one. */
  lemma {:induction false} FirstTokenOfSplit(a: string, c: char, b: string)
    requires NoTokenBreak(a) && IsTokenBreak(c)
    ensures FirstToken(a + [c] + b) == a
  {
    if a != [] {
      assert (a + [c] + b)[1..] == a[1..] + [c] + b;
      FirstTokenOfSplit(a[1..], c, b);
    }
  }

  /** The first token of a string without separators is the whole string. */
  lemma {:induction false} FirstTokenOfWhole(a: string)
    requires NoTokenBreak(a)
    ensures FirstToken(a) == a
  {
    if a != [] {
      FirstTokenOfWhole(a[1..]);
    }
  }

  lemma {:induction false} StartsWithConcat(a: string, b: string)
    ensures StartsWith(a + b, a)
  {
    assert (a + b)[..|a|] == a;
  }

  lemma {:induction false} StartsWithExtend(a: string, p: string, b: string)
    requires StartsWith(a, p)
    ensures StartsWith(a + b, p)
  {
    assert (a + b)[..|p|] == a[..|p|];
  }

  /** A line `head + " " + tail` splits into the token `head` and, after
      `substring` and `trim`, the rest `tail`. */
  lemma {:induction false} TokenAndRest(head: string, tail: string, text: string)
    requires text == head + " " + tail
    requires NoTokenBreak(head) && IsTrimmed(tail)
    ensures FirstToken(text) == head && Trim(From(text, |head|)) == tail
  {
    assert text[|head|..] == " " + tail;
    assert text == head + [' '] + tail;
    FirstTokenOfSplit(head, ' ', tail);
    AllSpaceBlank();
    TrimSkipsLeadingSpace(" ", tail);
    TrimOfTrimmed(tail);
  }

  lemma {:induction false} AllSpaceBlank()
    ensures AllSpace(" ")
  {
  }
}
