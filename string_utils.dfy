/** StringUtils: the snake-to-camel key normalisation applied to every filter
    key and sort token, LIKE-pattern detection and the blank check. */
module StringUtils {
  import opened Text
  import opened Results

  /** The non-empty parts, in order. */
  function NonEmpty(parts: seq<string>): (r: seq<string>)
    ensures forall k :: 0 <= k < |r| ==> r[k] != ""
    decreases |parts|
  {
    if |parts| == 0 then []
    else if parts[0] == "" then NonEmpty(parts[1..])
    else [parts[0]] + NonEmpty(parts[1..])
  }

  /** NonEmpty keeps exactly the non-empty parts. */
  lemma {:induction false} NonEmptyMembers(parts: seq<string>)
    ensures forall k :: 0 <= k < |NonEmpty(parts)| ==> NonEmpty(parts)[k] in parts
    ensures forall k :: 0 <= k < |parts| && parts[k] != "" ==> parts[k] in NonEmpty(parts)
    decreases |parts|
  {
    if |parts| > 0 {
      NonEmptyMembers(parts[1..]);
      assert forall k :: 1 <= k < |parts| ==> parts[k] == parts[1..][k - 1];
    }
  }

  /** field.split("[\\_]+") for a field that contains '_': the text before the
      first run of underscores (possibly empty), then each non-empty text
      between or after runs; a string made only of underscores gives none. */
  function Words(field: string): (ws: seq<string>)
    ensures forall k :: 0 <= k < |ws| ==> '_' !in ws[k]
    ensures forall k :: 0 < k < |ws| ==> ws[k] != ""
  {
    var segs := SplitAll(field, '_');
    NonEmptyMembers(segs[1..]);
    var w := [segs[0]] + NonEmpty(segs[1..]);
    if w == [""] then [] else w
  }

  /** A later word: upper-cased first character, lower-cased rest. */
  function Capitalized(w: string): (r: string)
    ensures |r| == |w|
    ensures w != "" ==> r[0] == UpperChar(w[0]) && r[1..] == Lower(w[1..])
  {
    if w == "" then w else [UpperChar(w[0])] + Lower(w[1..])
  }

  /** How the word at position i is rewritten. */
  function WordAt(i: nat, w: string): (r: string)
    ensures '_' !in w ==> '_' !in r
  {
    CaseKeepsNoUnderscore(w);
    if i == 0 then Lower(w) else Capitalized(w)
  }

  /** The camel-cased words ws[..n] appended in order. */
  function JoinWords(ws: seq<string>, n: nat): (r: string)
    requires n <= |ws|
    ensures (forall k :: 0 <= k < n ==> '_' !in ws[k]) ==> '_' !in r
    decreases n
  {
    if n == 0 then "" else
      var a := JoinWords(ws, n - 1);
      var b := WordAt(n - 1, ws[n - 1]);
      ConcatNoUnderscoreIf(a, b);
      a + b
  }

  /** StringUtils.toCamelCase as a value. */
  function CamelCase(field: string): string {
    if '_' !in field then field else JoinWords(Words(field), |Words(field)|)
  }

  /** The rewriting of one word, as the loop spells it out. */
  lemma WordAtCases(i: nat, w: string)
    ensures WordAt(i, w) == if w == "" then w else if i == 0 then Lower(w) else [UpperChar(w[0])] + Lower(w[1..])
  {
    if w == "" {
      assert Lower(w) == w;
    }
  }

  lemma JoinWordsStep(ws: seq<string>, i: nat, builder: string, word: string)
    requires i < |ws| && builder == JoinWords(ws, i) && word == WordAt(i, ws[i])
    ensures builder + word == JoinWords(ws, i + 1)
  {
  }

  /** StringUtils.toCamelCase: the loop over the words with a StringBuilder. */
  method ToCamelCase(field: string) returns (r: string)
    ensures r == CamelCase(field)
    ensures '_' !in r
    ensures '_' !in field ==> r == field
  {
    if '_' !in field {
      return field;
    }
    var words := Words(field);
    r := JoinCamelWords(words);
    CamelCaseHasNoUnderscore(field);
  }

  /** The loop of toCamelCase: the first word lower-cased, every later one
      capitalized, appended to a StringBuilder in order. */
  method JoinCamelWords(words: seq<string>) returns (builder: string)
    ensures builder == JoinWords(words, |words|)
  {
    builder := "";
    for i := 0 to |words|
      invariant builder == JoinWords(words, i)
    {
      var word := words[i];
      if i == 0 {
        word := if word == "" then word else Lower(word);
      } else {
        word := if word == "" then word else [UpperChar(word[0])] + Lower(word[1..]);
      }
      assert word == WordAt(i, words[i]) by { WordAtCases(i, words[i]); }
      JoinWordsStep(words, i, builder, word);
      builder := builder + word;
    }
  }

  lemma CaseKeepsNoUnderscore(w: string)
    ensures '_' !in w ==> '_' !in Lower(w) && '_' !in Capitalized(w)
  {
  }

  /** Concatenation keeps out a character both parts keep out. */
  lemma ConcatNoUnderscoreIf(a: string, b: string)
    ensures '_' !in a && '_' !in b ==> '_' !in a + b
  {
  }

  /** The output of toCamelCase never contains an underscore. */
  lemma CamelCaseHasNoUnderscore(field: string)
    ensures '_' !in CamelCase(field)
  {
    if '_' in field {
      var ws := Words(field);
      assert forall k :: 0 <= k < |ws| ==> '_' !in ws[k];
    }
  }

  /** toCamelCase is idempotent: a camel-cased key is left unchanged. */
  lemma CamelCaseIdempotent(field: string)
    ensures CamelCase(CamelCase(field)) == CamelCase(field)
  {
    CamelCaseHasNoUnderscore(field);
  }

  /** A key that is already camel case (no underscore) is kept as it is,
      capitalisation included; it is also its own normal form. */
  lemma CamelCaseFixedPoints(field: string)
    ensures CamelCase(field) == field <==> '_' !in field
  {
    CamelCaseHasNoUnderscore(field);
  }

  /** StringUtils.isLikeString: null is no pattern; otherwise a leading or
      trailing '%' makes one. */
  function IsLikeString(str: Option<string>): (r: bool)
    ensures str.None? ==> !r
    ensures str.Some? ==> (r <==> (|str.value| > 0 && (str.value[0] == '%' || str.value[|str.value| - 1] == '%')))
  {
    match str
    case None => false
    case Some(s) => StartsWith(s, "%") || EndsWith(s, "%")
  }

  /** StringUtils.isValidString: not null, not empty and not blank. */
  function IsValidString(str: Option<string>): (r: bool)
    ensures r <==> str.Some? && exists i :: 0 <= i < |str.value| && !IsWhitespace(str.value[i])
  {
    str.Some? && str.value != "" && !IsBlank(str.value)
  }

  /** Two non-empty words joined by one underscore split apart again. */
  lemma WordsTwo(a: string, b: string)
    requires '_' !in a && '_' !in b && a != "" && b != ""
    ensures Words(a + ['_'] + b) == [a, b]
  {
    SplitAllFirst(a, '_', b);
    SplitAllNoSep(b, '_');
    var segs := SplitAll(a + ['_'] + b, '_');
    assert segs == [a, b] && segs[0] == a && segs[1..] == [b];
    assert NonEmpty([b]) == [b] by { assert [b][1..] == []; }
  }

  lemma WordsExample()
    ensures Words("col_string") == ["col", "string"]
  {
    assert "col_string" == "col" + ['_'] + "string";
    WordsTwo("col", "string");
  }

  lemma JoinWordsExample()
    ensures JoinWords(["col", "string"], 2) == "colString"
  {
    var ws := ["col", "string"];
    assert WordAt(0, ws[0]) == "col" by { assert Lower("col") == "col"; }
    assert WordAt(1, ws[1]) == "String" by { assert Capitalized("string") == "String"; }
    assert JoinWords(ws, 1) == "col";
  }

  /** The documented example: "col_string" becomes "colString". */
  lemma CamelCaseExample()
    ensures CamelCase("col_string") == "colString"
  {
    WordsExample();
    JoinWordsExample();
    assert "col_string"[3] == '_';
  }
}
