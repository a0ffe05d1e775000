/**
 * The `code` command: read the language from the first token of the
 * suffix, take the rest as the code, and, for a language written with a
 * leading dash, put a zero width space before every dot of the code so
 * that links in it are not followed.
 */
module Code {
  import opened JsString

  /** What the command does with its suffix: complain that no language was
      given, or edit the message into a code block of `language` and `code`. */
  datatype CodeResult = NoLanguage | Block(language: string, code: string)

  /** U+200B ZERO WIDTH SPACE, `String.fromCharCode(8203)`. */
  const Zws: char := '\U{200B}'

  /** `code.replace(/[\.]/g, String.fromCharCode(8203) + '.')`. */
  function InsertZws(code: string): (r: string)
    ensures r == [] <==> code == []
    ensures r != [] ==> r[0] != '.'
  {
    if code == [] then []
    else if code[0] == '.' then [Zws, '.'] + InsertZws(code[1..])
    else [code[0]] + InsertZws(code[1..])
  }

  /** Undoes `InsertZws`: drops each zero width space that stands right
      before a dot. */
  function RemoveZws(s: string): string {
    if |s| >= 2 && s[0] == Zws && s[1] == '.' then ['.'] + RemoveZws(s[2..])
    else if s == [] then []
    else [s[0]] + RemoveZws(s[1..])
  }

  /** Every dot of the result has a zero width space right before it. */
  predicate DotsGuarded(s: string) {
    forall i :: 0 <= i < |s| && s[i] == '.' ==> i > 0 && s[i - 1] == Zws
  }

  /** The language token: the first space/newline-delimited token, trimmed. */
  function LanguageToken(suffix: string): string {
    Trim(FirstToken(suffix))
  }

  /** `process` of the command as written. */
  function Process(suffix: string): (r: CodeResult)
    ensures r.NoLanguage? <==> LanguageToken(suffix) == []
  {
    var token := LanguageToken(suffix);
    if |token| == 0 then NoLanguage
    else
      var language := if token == "none" then "" else token;
      var code := Trim(From(suffix, |language|));
      if StartsWith(language, "-") then Block(language[1..], InsertZws(code))
      else Block(language, code)
  }

  /** `process` as the comment on the `none` line means it: the language is
      cleared, but the code still starts after the language token. */
  function ProcessIntended(suffix: string): (r: CodeResult)
    ensures r.NoLanguage? <==> LanguageToken(suffix) == []
  {
    var token := LanguageToken(suffix);
    if |token| == 0 then NoLanguage
    else
      var language := if token == "none" then "" else token;
      var code := Trim(From(suffix, |token|));
      if StartsWith(language, "-") then Block(language[1..], InsertZws(code))
      else Block(language, code)
  }

  // ---------------------------------------------------------------------
  // Properties.

  /** `RemoveZws` is a left inverse of `InsertZws`: the rewrite loses
      nothing of the code. */
  lemma {:induction false} RemoveInsertZws(code: string)
    ensures RemoveZws(InsertZws(code)) == code
  {
    if code != [] {
      RemoveInsertZws(code[1..]);
      var rest := InsertZws(code[1..]);
      if code[0] == '.' {
        assert ([Zws, '.'] + rest)[2..] == rest;
      } else {
        assert ([code[0]] + rest)[1..] == rest;
      }
    }
  }

  /** After the rewrite every dot is preceded by a zero width space, and the
      dots are exactly those of the code. */
  lemma {:induction false} InsertZwsGuardsDots(code: string)
    ensures DotsGuarded(InsertZws(code))
    ensures |InsertZws(code)| == |code| + Count(code, '.')
  {
    if code != [] {
      InsertZwsGuardsDots(code[1..]);
      var rest := InsertZws(code[1..]);
      var head: string := if code[0] == '.' then [Zws, '.'] else [code[0]];
      assert InsertZws(code) == head + rest;
      forall i | 0 <= i < |head + rest| && (head + rest)[i] == '.'
        ensures i > 0 && (head + rest)[i - 1] == Zws
      {
        if i >= |head| {
          assert (head + rest)[i] == rest[i - |head|];
          assert i - |head| > 0;
          assert (head + rest)[i - 1] == rest[i - |head| - 1];
        }
      }
    }
  }

  /** How often `c` occurs in `s`. */
  function Count(s: string, c: char): nat {
    if s == [] then 0 else (if s[0] == c then 1 else 0) + Count(s[1..], c)
  }

  /** A first token with a leading dash loses exactly that dash and turns on
      the dot rewrite; otherwise the code is the trimmed rest of the suffix. */
  lemma {:induction false} ProcessCommandLine(language: string, code: string)
    requires language != [] && language != "none" && IsTrimmed(language) && NoTokenBreak(language)
    requires IsTrimmed(code)
    ensures Process(language + " " + code) ==
              if language[0] == '-' then Block(language[1..], InsertZws(code)) else Block(language, code)
  {
    LanguagePieces(language, code, language + " " + code);
    DashPrefix(language);
    ProcessParts(language + " " + code, language, code);
  }

  /** How `Process` reads a suffix, given the pieces it cuts. */
  lemma {:induction false} ProcessParts(suffix: string, language: string, code: string)
    requires LanguageToken(suffix) == language && language != [] && language != "none"
    requires Trim(From(suffix, |language|)) == code
    ensures Process(suffix) ==
              if StartsWith(language, "-") then Block(language[1..], InsertZws(code)) else Block(language, code)
  {
  }

  lemma {:induction false} DashPrefix(language: string)
    requires language != []
    ensures StartsWith(language, "-") <==> language[0] == '-'
  {
  }

  lemma {:induction false} LanguagePieces(language: string, code: string, suffix: string)
    requires suffix == language + " " + code
    requires NoTokenBreak(language) && IsTrimmed(language) && IsTrimmed(code)
    ensures LanguageToken(suffix) == language
    ensures Trim(From(suffix, |language|)) == code
  {
    TokenAndRest(language, code, suffix);
    TrimOfTrimmed(language);
  }

  lemma {:induction false} NoneLine(code: string, suffix: string)
    requires suffix == "none " + code && IsTrimmed(code)
    ensures LanguageToken(suffix) == "none" && Trim(From(suffix, 4)) == code
  {
    assert suffix == "none" + " " + code;
    LanguagePieces("none", code, suffix);
  }

  /** As written, `none` keeps the word "none" in the code: the code is cut
      off after the cleared language, which is empty. */
  lemma {:induction false} NoneKeepsWord(code: string)
    requires code != [] && IsTrimmed(code)
    ensures Process("none " + code) == Block("", "none " + code)
  {
    var suffix := "none " + code;
    NoneLine(code, suffix);
    NoneLineTrimmed(code, suffix);
    NoneParts(suffix, code);
  }

  lemma {:induction false} NoneLineTrimmed(code: string, suffix: string)
    requires suffix == "none " + code && code != [] && IsTrimmed(code)
    ensures Trim(From(suffix, 0)) == suffix
  {
    assert From(suffix, 0) == suffix;
    assert suffix[0] == 'n';
    if code != [] {
      assert suffix[|suffix| - 1] == code[|code| - 1];
    }
    TrimOfTrimmed(suffix);
  }

  /** How both readings treat a suffix whose language token is `none`. */
  lemma {:induction false} NoneParts(suffix: string, rest: string)
    requires LanguageToken(suffix) == "none" && Trim(From(suffix, 4)) == rest
    ensures Process(suffix) == Block("", Trim(From(suffix, 0)))
    ensures ProcessIntended(suffix) == Block("", rest)
  {
  }

  /** The concrete instance: "none x" yields the code "none x", not "x". */
  lemma {:induction false} NoneExample()
    ensures Process("none x") == Block("", "none x")
    ensures ProcessIntended("none x") == Block("", "x")
  {
    assert "none x" == "none " + "x";
    NoneKeepsWord("x");
    NoneDropsWord("x");
  }

  /** With the intended reading, `none` gives a block without a language
      whose code is the rest of the suffix. */
  lemma {:induction false} NoneDropsWord(code: string)
    requires IsTrimmed(code)
    ensures ProcessIntended("none " + code) == Block("", code)
  {
    var suffix := "none " + code;
    NoneLine(code, suffix);
    NoneParts(suffix, code);
  }

  /** Apart from `none`, the intended reading and the code as written agree. */
  lemma {:induction false} IntendedAgreesElsewhere(suffix: string)
    requires LanguageToken(suffix) != "none"
    ensures ProcessIntended(suffix) == Process(suffix)
  {
  }
}
