/**
 * Property-name case conversion (rptrc/src/operators/property_converter.py):
 * camelCase to UPPER_SNAKE_CASE with two regular-expression substitutions and
 * `str.upper`, UPPER_SNAKE_CASE to camelCase with `str.split`, `str.title` and
 * a lowercased first letter, and the conversion of a properties dict's keys
 * one nesting level deep. The regular expressions are written out as
 * left-to-right scans over ASCII characters.
 */
module PropertyConverter {
  import opened Wrappers
  import opened Exceptions
  import opened Json
  import opened Text
  import opened Dicts

  const CamelcaseToUppercase: string := "camelcase_to_uppercase"
  const UppercaseToCamelcase: string := "uppercase_to_camelcase"

  predicate ValidConversionType(conversionType: string)
  {
    conversionType == CamelcaseToUppercase || conversionType == UppercaseToCamelcase
  }

  function InvalidTypeMessage(conversionType: string): string
  {
    "\"" + conversionType + "\" is not a valid conversion type."
  }

  function NotAStringMessage(value: Json): string
  {
    "\"" + ToStr(value) + "\" is not a string so cannot be converted."
  }

  function ConversionError(message: string): Error
  {
    Custom(PropertyConversion, Some(message))
  }

  // ---------------------------------------------------------------------------
  // Character-level helpers

  /** The string with every `_` deleted. */
  function DropUnderscores(s: string): (r: string)
    ensures '_' !in r
  {
    if s == [] then [] else (if s[0] == '_' then [] else [s[0]]) + DropUnderscores(s[1..])
  }

  lemma {:induction false} DropUnderscoresAppend(a: string, b: string)
    ensures DropUnderscores(a + b) == DropUnderscores(a) + DropUnderscores(b)
  {
    if a == [] {
      assert a + b == b;
    } else {
      assert (a + b)[0] == a[0];
      assert (a + b)[1..] == a[1..] + b;
      DropUnderscoresAppend(a[1..], b);
    }
  }

  lemma {:induction false} DropUnderscoresUpper(s: string)
    ensures DropUnderscores(Upper(s)) == Upper(DropUnderscores(s))
  {
    if s != [] {
      var c, t := s[0], s[1..];
      UpperCons(c, t);
      assert [c] + t == s;
      DropUnderscoresCons(ToUpper(c), Upper(t));
      DropUnderscoresCons(c, t);
      DropUnderscoresUpper(t);
      if c != '_' {
        UpperCons(c, DropUnderscores(t));
      }
    }
  }

  lemma DropUnderscoresCons(c: char, t: string)
    ensures DropUnderscores([c] + t) == (if c == '_' then [] else [c]) + DropUnderscores(t)
  {
    assert ([c] + t)[1..] == t;
  }

  lemma UpperCons(c: char, t: string)
    ensures Upper([c] + t) == [ToUpper(c)] + Upper(t)
  {
  }

  /** The length of the run of lowercase letters `s` starts with. */
  function LowerRun(s: string): (n: nat)
    ensures n <= |s|
    ensures forall i :: 0 <= i < n ==> IsLower(s[i])
    ensures n < |s| ==> !IsLower(s[n])
  {
    if s != [] && IsLower(s[0]) then 1 + LowerRun(s[1..]) else 0
  }

  // ---------------------------------------------------------------------------
  // camelCase to UPPER_SNAKE_CASE

  /**
   * `re.sub('(.)([A-Z][a-z]+)', r'\1_\2', s)`: wherever a character other
   * than a newline is followed by a capital and a run of lowercase letters,
   * an `_` goes between them; the scan resumes after the run.
   */
  function SeparateWords(s: string): string
    decreases |s|
  {
    if s == [] then []
    else if |s| >= 3 && s[0] != '\n' && IsUpper(s[1]) && IsLower(s[2]) then
      var end := 2 + LowerRun(s[2..]);
      [s[0], '_'] + s[1..end] + SeparateWords(s[end..])
    else [s[0]] + SeparateWords(s[1..])
  }

  /**
   * `re.sub('([a-z0-9])([A-Z])', r'\1_\2', s)`: an `_` between a lowercase
   * letter or digit and the capital after it; the scan resumes after the
   * capital.
   */
  function SeparateLowerUpper(s: string): string
    decreases |s|
  {
    if |s| >= 2 && (IsLower(s[0]) || IsDigit(s[0])) && IsUpper(s[1]) then [s[0], '_', s[1]] + SeparateLowerUpper(s[2..])
    else if s == [] then []
    else [s[0]] + SeparateLowerUpper(s[1..])
  }

  /** `convert_camelcase_to_uppercase` */
  function CamelToUpper(s: string): string
  {
    Upper(SeparateLowerUpper(SeparateWords(s)))
  }

  /**
   * Inserting an `_` after a first character and a word, in front of a tail
   * that only gained underscores, only gains underscores.
   */
  lemma DropUnderscoresAfterWord(c: char, w: string, x: string, y: string)
    requires DropUnderscores(x) == DropUnderscores(y)
    ensures DropUnderscores([c, '_'] + (w + x)) == DropUnderscores([c] + (w + y))
  {
    assert ([c, '_'] + (w + x))[1..] == ['_'] + (w + x);
    assert (['_'] + (w + x))[1..] == w + x;
    assert ([c] + (w + y))[1..] == w + y;
    DropUnderscoresAppend(w, x);
    DropUnderscoresAppend(w, y);
  }

  /** One step of the first substitution when it inserts an `_`. */
  lemma SeparateWordsInsert(s: string, end: nat)
    requires |s| >= 3 && s[0] != '\n' && IsUpper(s[1]) && IsLower(s[2])
    requires end == 2 + LowerRun(s[2..])
    ensures end <= |s|
    ensures SeparateWords(s) == [s[0], '_'] + s[1..end] + SeparateWords(s[end..])
  {
  }


  lemma {:induction false} SeparateWordsOnlyInserts(s: string)
    ensures DropUnderscores(SeparateWords(s)) == DropUnderscores(s)
    decreases |s|
  {
    if s == [] {
    } else if |s| >= 3 && s[0] != '\n' && IsUpper(s[1]) && IsLower(s[2]) {
      var end := 2 + LowerRun(s[2..]);
      SeparateWordsInsert(s, end);
      SeparateWordsOnlyInserts(s[end..]);
      OnlyInsertsAfterWord(s, end, SeparateWords(s[end..]));
    } else {
      SeparateWordsOnlyInserts(s[1..]);
      OnlyInsertsAfterFirst(s, SeparateWords(s[1..]));
    }
  }

  /** `[s[0], '_'] + w + x` only adds underscores to `s` when `x` only adds them to the rest. */
  lemma OnlyInsertsAfterWord(s: string, end: nat, x: string)
    requires 1 <= end <= |s|
    requires DropUnderscores(x) == DropUnderscores(s[end..])
    ensures DropUnderscores([s[0], '_'] + s[1..end] + x) == DropUnderscores(s)
  {
    AppendAssociates([s[0], '_'], s[1..end], x);
    SplitAround(s, end);
    DropUnderscoresAfterWord(s[0], s[1..end], x, s[end..]);
  }

  lemma SplitAround(s: string, end: nat)
    requires 1 <= end <= |s|
    ensures s == [s[0]] + (s[1..end] + s[end..])
  {
    assert s[1..end] + s[end..] == s[1..];
  }

  /** `[s[0]] + x` only adds underscores to `s` when `x` only adds them to `s[1..]`. */
  lemma OnlyInsertsAfterFirst(s: string, x: string)
    requires s != [] && DropUnderscores(x) == DropUnderscores(s[1..])
    ensures DropUnderscores([s[0]] + x) == DropUnderscores(s)
  {
    DropUnderscoresAppend([s[0]], x);
    DropUnderscoresAppend([s[0]], s[1..]);
    assert [s[0]] + s[1..] == s;
  }

  lemma {:induction false} SeparateLowerUpperOnlyInserts(s: string)
    ensures DropUnderscores(SeparateLowerUpper(s)) == DropUnderscores(s)
    decreases |s|
  {
    if |s| >= 2 && (IsLower(s[0]) || IsDigit(s[0])) && IsUpper(s[1]) {
      SeparateLowerUpperOnlyInserts(s[2..]);
      DropUnderscoresAppend([s[0], '_', s[1]], SeparateLowerUpper(s[2..]));
      DropUnderscoresAppend(s[..2], s[2..]);
      assert s[..2] + s[2..] == s;
      assert [s[0], '_', s[1]][1..] == ['_', s[1]] && ['_', s[1]][1..] == [s[1]];
      assert s[..2][1..] == [s[1]];
      assert DropUnderscores([s[0], '_', s[1]]) == [s[0], s[1]] == DropUnderscores(s[..2]);
    } else if s != [] {
      SeparateLowerUpperOnlyInserts(s[1..]);
      DropUnderscoresAppend([s[0]], SeparateLowerUpper(s[1..]));
      DropUnderscoresAppend([s[0]], s[1..]);
      assert [s[0]] + s[1..] == s;
    }
  }

  /**
   * camelCase to UPPER_SNAKE_CASE only inserts underscores and uppercases:
   * deleting every `_` from the result gives the uppercased input without
   * its underscores.
   */
  lemma CamelToUpperOnlyInserts(s: string)
    ensures DropUnderscores(CamelToUpper(s)) == Upper(DropUnderscores(s))
  {
    SeparateWordsOnlyInserts(s);
    SeparateLowerUpperOnlyInserts(SeparateWords(s));
    DropUnderscoresUpper(SeparateLowerUpper(SeparateWords(s)));
  }

  /**
   * Already-uppercase input: no lowercase letters, and no digit directly
   * before a capital (`A1B` would become `A1_B`).
   */
  predicate IsUpperSnake(s: string)
  {
    && (forall i :: 0 <= i < |s| ==> !IsLower(s[i]))
    && (forall i :: 0 <= i < |s| - 1 ==> !(IsDigit(s[i]) && IsUpper(s[i + 1])))
  }

  lemma {:induction false} SeparateWordsKeepsUpper(s: string)
    requires forall i :: 0 <= i < |s| ==> !IsLower(s[i])
    ensures SeparateWords(s) == s
    decreases |s|
  {
    if s != [] {
      assert !IsLower(s[0]) && (|s| >= 3 ==> !IsLower(s[2]));
      SeparateWordsKeepsUpper(s[1..]);
      assert [s[0]] + s[1..] == s;
    }
  }

  lemma {:induction false} SeparateLowerUpperKeepsUpper(s: string)
    requires IsUpperSnake(s)
    ensures SeparateLowerUpper(s) == s
    decreases |s|
  {
    if s != [] {
      assert |s| >= 2 ==> !IsLower(s[0]) && !(IsDigit(s[0]) && IsUpper(s[1]));
      assert IsUpperSnake(s[1..]) by {
        assert forall i :: 0 <= i < |s| - 1 ==> s[1..][i] == s[i + 1];
      }
      SeparateLowerUpperKeepsUpper(s[1..]);
      assert [s[0]] + s[1..] == s;
    }
  }

  /** UPPER_SNAKE_CASE input comes back unchanged. */
  lemma CamelToUpperKeepsUpperSnake(s: string)
    requires IsUpperSnake(s)
    ensures CamelToUpper(s) == s
  {
    SeparateWordsKeepsUpper(s);
    SeparateLowerUpperKeepsUpper(s);
  }

  // ---------------------------------------------------------------------------
  // UPPER_SNAKE_CASE to camelCase

  /** `make_first_letter_lowercase`: `s[:1].lower() + s[1:]` */
  function MakeFirstLetterLowercase(s: string): (r: string)
    ensures |r| == |s|
    ensures s != [] ==> r[0] == ToLower(s[0]) && !IsUpper(r[0]) && r[1..] == s[1..]
  {
    if s == [] then [] else Lower(s[..1]) + s[1..]
  }

  /** `str.title` from a position: letters after a cased character are lowercased, the others uppercased. */
  function TitleFrom(s: string, afterCased: bool): (r: string)
    ensures |r| == |s|
    ensures forall i :: 0 <= i < |s| && !IsCased(s[i]) ==> r[i] == s[i]
    ensures forall i :: 0 <= i < |s| ==> IsCased(r[i]) == IsCased(s[i])
  {
    if s == [] then []
    else [if afterCased then ToLower(s[0]) else ToUpper(s[0])] + TitleFrom(s[1..], IsCased(s[0]))
  }

  /** `word.title()` */
  function Title(word: string): (r: string)
    ensures |r| == |word|
    ensures forall c :: c in r && !IsCased(c) ==> c in word
  {
    var r := TitleFrom(word, false);
    assert forall i :: 0 <= i < |r| && !IsCased(r[i]) ==> r[i] == word[i];
    r
  }

  /** `is_camel_case`: mixed case and no `_`. */
  predicate IsCamelCase(s: string)
  {
    s != Lower(s) && s != Upper(s) && '_' !in s
  }

  /** Each word title-cased. */
  function TitleAll(words: seq<string>): seq<string>
  {
    seq(|words|, i requires 0 <= i < |words| => Title(words[i]))
  }

  /** `convert_uppercase_to_camelcase` */
  function UpperToCamel(s: string): string
  {
    if IsCamelCase(s) then s
    else MakeFirstLetterLowercase(Concat(TitleAll(Split(s, '_'))))
  }

  lemma {:induction false} ConcatAvoids(parts: seq<string>, c: char)
    requires forall i :: 0 <= i < |parts| ==> c !in parts[i]
    ensures c !in Concat(parts)
  {
    if parts != [] {
      ConcatAvoids(parts[1..], c);
    }
  }

  /**
   * camelCase input comes back unchanged; any other input gives a string
   * without `_` whose first character is not a capital.
   */
  lemma UpperToCamelShape(s: string)
    ensures IsCamelCase(s) ==> UpperToCamel(s) == s
    ensures !IsCamelCase(s) ==> '_' !in UpperToCamel(s)
    ensures UpperToCamel(s) != [] && !IsCamelCase(s) ==> !IsUpper(UpperToCamel(s)[0])
  {
    if !IsCamelCase(s) {
      var words := Split(s, '_');
      var titled := TitleAll(words);
      assert forall i :: 0 <= i < |titled| ==> '_' !in titled[i] by {
        forall i | 0 <= i < |titled|
          ensures '_' !in titled[i]
        {
          assert words[i] in words;
        }
      }
      ConcatAvoids(titled, '_');
      var joined := Concat(titled);
      var r := MakeFirstLetterLowercase(joined);
      if r != [] {
        assert r[0] == ToLower(joined[0]);
        assert joined[0] in joined;
      }
      forall i | 0 <= i < |r|
        ensures r[i] != '_'
      {
        if i == 0 {
          assert joined[0] in joined;
        } else {
          assert r[i] == r[1..][i - 1] == joined[1..][i - 1] == joined[i];
          assert joined[i] in joined;
        }
      }
    }
  }

  // ---------------------------------------------------------------------------
  // convert_string

  /** `ensure_value_is_a_string` */
  function EnsureValueIsAString(value: Json): (r: Result<()>)
    ensures r.Ok? <==> value.Str?
  {
    if value.Str? then Ok(()) else Err(ConversionError(NotAStringMessage(value)))
  }

  /** `ensure_valid_conversion_type` */
  function EnsureValidConversionType(conversionType: string): (r: Result<()>)
    ensures r.Ok? <==> ValidConversionType(conversionType)
  {
    if ValidConversionType(conversionType) then Ok(()) else Err(ConversionError(InvalidTypeMessage(conversionType)))
  }

  /** The conversion `conversion_type` names, once it has been checked. */
  function Convert(s: string, conversionType: string): string
  {
    if conversionType == CamelcaseToUppercase then CamelToUpper(s) else UpperToCamel(s)
  }

  /** `convert_string`: the value is checked before the conversion type. */
  function ConvertString(value: Json, conversionType: string): (r: Result<string>)
    ensures !value.Str? ==> r == Err(ConversionError(NotAStringMessage(value)))
    ensures value.Str? && !ValidConversionType(conversionType) ==> r == Err(ConversionError(InvalidTypeMessage(conversionType)))
    ensures value.Str? && conversionType == CamelcaseToUppercase ==> r == Ok(CamelToUpper(value.s))
    ensures value.Str? && conversionType == UppercaseToCamelcase ==> r == Ok(UpperToCamel(value.s))
  {
    var _ :- EnsureValueIsAString(value);
    var _ :- EnsureValidConversionType(conversionType);
    Ok(Convert(value.s, conversionType))
  }

  /** A conversion error renders with its class's prefix. */
  lemma ConversionErrorRendering(message: string)
    requires message != ""
    ensures Render(ConversionError(message)) == "Property Conversion Exception, " + message
  {
  }

  // ---------------------------------------------------------------------------
  // convert_properties

  /** The conversion `conversion_type` names, as a function of the key. */
  function Renamer(conversionType: string): string -> string
  {
    (key: string) => Convert(key, conversionType)
  }

  /** `convert_string` on a key gives the key's conversion once the type is valid. */
  lemma ConvertStringRenames(key: string, conversionType: string)
    ensures ConvertString(Str(key), conversionType).Ok? <==> ValidConversionType(conversionType)
    ensures ConvertString(Str(key), conversionType).Ok? ==>
              ConvertString(Str(key), conversionType).value == Renamer(conversionType)(key)
    ensures ConvertString(Str(key), conversionType).Err? ==>
              ConvertString(Str(key), conversionType) == Err(ConversionError(InvalidTypeMessage(conversionType)))
  {
  }

  /**
   * The entries of a dict in order, each key renamed and each value
   * rewritten, assigned into an empty dict: a later key whose new name
   * collides overwrites the earlier value in place.
   */
  function RenameEntries(d: Dict<Json>, rename: string -> string, revalue: Json -> Json): Dict<Json>
    decreases |d|
  {
    if d == [] then []
    else
      var n := |d| - 1;
      Set(RenameEntries(d[..n], rename, revalue), rename(d[n].0), revalue(d[n].1))
  }

  /** The keys of a dict renamed, values kept. */
  function ConvertKeys(d: Dict<Json>, rename: string -> string): Dict<Json>
  {
    RenameEntries(d, rename, (v: Json) => v)
  }

  /** A top-level value after conversion: a nested dict has its own keys renamed, one level only. */
  function ConvertNested(value: Json, rename: string -> string): Json
  {
    if value.Obj? then Obj(ConvertKeys(value.members, rename)) else value
  }

  /** The keys of a dict renamed, and those of the dicts directly inside it. */
  function ConvertTop(d: Dict<Json>, rename: string -> string): Dict<Json>
  {
    RenameEntries(d, rename, (v: Json) => ConvertNested(v, rename))
  }

  /**
   * What `convert_properties` returns: the invalid-type error as soon as
   * there is a key to convert; an empty dict converts to itself whatever the
   * type.
   */
  function ConvertedProperties(d: Dict<Json>, conversionType: string): Result<Dict<Json>>
  {
    if d == [] then Ok([])
    else if !ValidConversionType(conversionType) then Err(ConversionError(InvalidTypeMessage(conversionType)))
    else Ok(ConvertTop(d, Renamer(conversionType)))
  }

  /** Whether renaming the keys of `d` makes no two of them equal. */
  predicate RenamesInjectively(d: Dict<Json>, rename: string -> string)
  {
    forall i, j :: 0 <= i < j < |d| ==> rename(d[i].0) != rename(d[j].0)
  }

  /**
   * When no two keys are renamed alike, every entry stays in place with its
   * key renamed and its value rewritten.
   */
  lemma {:induction false} RenameEntriesEntrywise(d: Dict<Json>, rename: string -> string, revalue: Json -> Json)
    requires RenamesInjectively(d, rename)
    ensures RenameEntries(d, rename, revalue) == seq(|d|, i requires 0 <= i < |d| => (rename(d[i].0), revalue(d[i].1)))
    decreases |d|
  {
    if d != [] {
      var n := |d| - 1;
      InjectivePrefix(d, rename);
      RenameEntriesEntrywise(d[..n], rename, revalue);
      var before := RenameEntries(d[..n], rename, revalue);
      LastKeyFresh(d, rename, before);
      RenamedSnoc(d, rename, revalue);
    }
  }

  lemma InjectivePrefix(d: Dict<Json>, rename: string -> string)
    requires d != [] && RenamesInjectively(d, rename)
    ensures RenamesInjectively(d[..|d| - 1], rename)
  {
    var p := d[..|d| - 1];
    assert forall i :: 0 <= i < |p| ==> p[i] == d[i];
  }

  /** The entrywise renaming of `d` extends that of all but its last entry by one entry. */
  lemma RenamedSnoc(d: Dict<Json>, rename: string -> string, revalue: Json -> Json)
    requires d != []
    ensures var n := |d| - 1;
      seq(|d|, i requires 0 <= i < |d| => (rename(d[i].0), revalue(d[i].1)))
      == seq(n, i requires 0 <= i < n => (rename(d[..n][i].0), revalue(d[..n][i].1)))
         + [(rename(d[n].0), revalue(d[n].1))]
  {
  }

  /**
   * When no two keys are renamed alike, `convert_properties` keeps every
   * entry in place with its key converted, and converts the keys of a dict
   * value the same way.
   */
  lemma ConvertTopEntrywise(d: Dict<Json>, rename: string -> string)
    requires RenamesInjectively(d, rename)
    ensures ConvertTop(d, rename) == seq(|d|, i requires 0 <= i < |d| => (rename(d[i].0), ConvertNested(d[i].1, rename)))
    ensures forall i :: 0 <= i < |d| && d[i].1.Obj? && RenamesInjectively(d[i].1.members, rename) ==>
              ConvertNested(d[i].1, rename)
              == Obj(seq(|d[i].1.members|, k requires 0 <= k < |d[i].1.members| =>
                           (rename(d[i].1.members[k].0), d[i].1.members[k].1)))
  {
    TopEntrywise(d, rename);
    forall i | 0 <= i < |d| && d[i].1.Obj? && RenamesInjectively(d[i].1.members, rename)
      ensures ConvertNested(d[i].1, rename)
              == Obj(seq(|d[i].1.members|, k requires 0 <= k < |d[i].1.members| =>
                           (rename(d[i].1.members[k].0), d[i].1.members[k].1)))
    {
      NestedEntrywise(d[i].1, rename);
    }
  }

  lemma TopEntrywise(d: Dict<Json>, rename: string -> string)
    requires RenamesInjectively(d, rename)
    ensures ConvertTop(d, rename) == seq(|d|, i requires 0 <= i < |d| => (rename(d[i].0), ConvertNested(d[i].1, rename)))
  {
    RenameEntriesEntrywise(d, rename, (v: Json) => ConvertNested(v, rename));
  }

  /** A nested dict has its keys renamed in place and its values kept. */
  lemma NestedEntrywise(value: Json, rename: string -> string)
    requires value.Obj? && RenamesInjectively(value.members, rename)
    ensures ConvertNested(value, rename)
            == Obj(seq(|value.members|, k requires 0 <= k < |value.members| =>
                         (rename(value.members[k].0), value.members[k].1)))
  {
    RenameEntriesEntrywise(value.members, rename, (v: Json) => v);
  }

  /** Under an injective renaming the last key's new name is not among the earlier ones'. */
  lemma LastKeyFresh(d: Dict<Json>, rename: string -> string, before: Dict<Json>)
    requires d != [] && RenamesInjectively(d, rename)
    requires |before| == |d| - 1
    requires forall i :: 0 <= i < |before| ==> before[i].0 == rename(d[i].0)
    ensures rename(d[|d| - 1].0) !in Keys(before)
  {
    KeysAreFirsts(before);
    forall i | 0 <= i < |before|
      ensures Keys(before)[i] != rename(d[|d| - 1].0)
    {
      assert Keys(before)[i] == rename(d[i].0);
    }
  }

  /** The keys of a dict are the first components of its entries, in order. */
  lemma {:induction false} KeysAreFirsts<V>(e: Dict<V>)
    ensures Keys(e) == seq(|e|, i requires 0 <= i < |e| => e[i].0)
    decreases |e|
  {
    if e != [] {
      KeysAreFirsts(e[1..]);
    }
  }

  class PropertyConverter {
    var properties: Dict<Json>

    constructor (properties: Dict<Json>)
      ensures this.properties == properties
    {
      this.properties := properties;
    }

    /**
     * `convert_properties`: converts each key in order, and the keys of a
     * dict value one level down; the result replaces `properties`. The
     * first key's conversion raises the invalid-type error, and then
     * `properties` is left as it was.
     */
    method ConvertProperties(conversionType: string) returns (r: Result<Dict<Json>>)
      modifies this
      ensures r == ConvertedProperties(old(properties), conversionType)
      ensures r.Ok? ==> properties == r.value
      ensures r.Err? ==> properties == old(properties)
    {
      ghost var rename := Renamer(conversionType);
      var entries := properties;
      var converted: Dict<Json> := [];
      var i := 0;
      while i < |entries|
        invariant 0 <= i <= |entries|
        invariant entries == old(properties) && properties == old(properties)
        invariant i > 0 ==> ValidConversionType(conversionType)
        invariant converted == ConvertTop(entries[..i], rename)
      {
        var key := entries[i].0;
        var value := entries[i].1;
        ConvertStringRenames(key, conversionType);
        var keyConversion := ConvertString(Str(key), conversionType);
        if keyConversion.Err? {
          return Err(keyConversion.error);
        }
        var convertedKey := keyConversion.value;
        ConvertTopStep(entries, i, rename);
        ghost var before := converted;
        converted := Set(converted, convertedKey, value);
        if value.Obj? {
          var convertedSubproperties := ConvertSubproperties(value.members, conversionType);
          SetTwice(before, convertedKey, value, Obj(convertedSubproperties));
          converted := Set(converted, convertedKey, Obj(convertedSubproperties));
        }
        i := i + 1;
      }
      assert entries[..i] == entries;
      properties := converted;
      r := Ok(converted);
    }
  }

  /**
   * The inner loop of `convert_properties`: the keys of a dict value
   * converted in order, each assigned into a new dict. The conversion type
   * has already been accepted for the first top-level key.
   */
  method ConvertSubproperties(subproperties: Dict<Json>, conversionType: string) returns (r: Dict<Json>)
    requires ValidConversionType(conversionType)
    ensures r == ConvertKeys(subproperties, Renamer(conversionType))
  {
    ghost var rename := Renamer(conversionType);
    r := [];
    var j := 0;
    while j < |subproperties|
      invariant 0 <= j <= |subproperties|
      invariant r == ConvertKeys(subproperties[..j], rename)
    {
      ConvertStringRenames(subproperties[j].0, conversionType);
      var convertedSubKey := ConvertString(Str(subproperties[j].0), conversionType).value;
      ConvertKeysStep(subproperties, j, rename);
      r := Set(r, convertedSubKey, subproperties[j].1);
      j := j + 1;
    }
    assert subproperties[..j] == subproperties;
  }

  lemma {:induction false} SetTwice(d: Dict<Json>, k: string, v: Json, w: Json)
    ensures Set(Set(d, k, v), k, w) == Set(d, k, w)
  {
    if d != [] {
      var p, e := d[0], d[1..];
      assert [p] + e == d;
      SetCons(p, e, k, v);
      SetCons(p, e, k, w);
      if p.0 == k {
        SetCons((k, v), e, k, w);
      } else {
        SetTwice(e, k, v, w);
        SetCons(p, Set(e, k, v), k, w);
      }
    }
  }

  /** `d[k] = v` on a dict with one more entry in front. */
  lemma SetCons(p: (string, Json), e: Dict<Json>, k: string, v: Json)
    ensures Set([p] + e, k, v) == if p.0 == k then [(k, v)] + e else [p] + Set(e, k, v)
  {
    assert ([p] + e)[0] == p;
    assert ([p] + e)[1..] == e;
  }

  lemma RenameEntriesStep(d: Dict<Json>, i: nat, rename: string -> string, revalue: Json -> Json)
    requires i < |d|
    ensures RenameEntries(d[..i + 1], rename, revalue) == Set(RenameEntries(d[..i], rename, revalue), rename(d[i].0), revalue(d[i].1))
  {
    assert d[..i + 1][..i] == d[..i];
  }

  lemma ConvertTopStep(d: Dict<Json>, i: nat, rename: string -> string)
    requires i < |d|
    ensures ConvertTop(d[..i + 1], rename) == Set(ConvertTop(d[..i], rename), rename(d[i].0), ConvertNested(d[i].1, rename))
  {
    RenameEntriesStep(d, i, rename, (v: Json) => ConvertNested(v, rename));
  }

  lemma ConvertKeysStep(d: Dict<Json>, i: nat, rename: string -> string)
    requires i < |d|
    ensures ConvertKeys(d[..i + 1], rename) == Set(ConvertKeys(d[..i], rename), rename(d[i].0), d[i].1)
  {
    RenameEntriesStep(d, i, rename, (v: Json) => v);
  }

  // ---------------------------------------------------------------------------
  // Round trip on names made of words

  /** A run of one or more lowercase letters: the first word of a camelCase name. */
  predicate IsLowerWord(w: string)
  {
    |w| >= 1 && forall i :: 0 <= i < |w| ==> IsLower(w[i])
  }

  /** A capital followed by one or more lowercase letters: a later word of a camelCase name. */
  predicate IsCapWord(w: string)
  {
    |w| >= 2 && IsUpper(w[0]) && IsLowerWord(w[1..])
  }

  predicate CapWords(words: seq<string>)
  {
    forall i :: 0 <= i < |words| ==> IsCapWord(words[i])
  }

  /** The words, each after an `_`. */
  function Underscored(words: seq<string>): string
  {
    if words == [] then "" else "_" + words[0] + Underscored(words[1..])
  }

  /** The words with an `_` before every other one, starting with the first when `sep`. */
  function Alternating(words: seq<string>, sep: bool): string
  {
    if words == [] then "" else (if sep then "_" else "") + words[0] + Alternating(words[1..], !sep)
  }

  function UpperAll(words: seq<string>): seq<string>
  {
    seq(|words|, i requires 0 <= i < |words| => Upper(words[i]))
  }

  /** A lowercase run followed by text that does not start with a lowercase letter. */
  lemma {:induction false} LowerRunOf(a: string, b: string)
    requires IsLowerWord(a) || a == []
    requires b == [] || !IsLower(b[0])
    ensures LowerRun(a + b) == |a|
  {
    if a == [] {
      assert a + b == b;
    } else {
      assert (a + b)[0] == a[0] && (a + b)[1..] == a[1..] + b;
      assert IsLowerWord(a[1..]) || a[1..] == [] by {
        assert forall i :: 0 <= i < |a[1..]| ==> a[1..][i] == a[i + 1];
      }
      LowerRunOf(a[1..], b);
    }
  }

  lemma CapWordsTail(words: seq<string>)
    requires CapWords(words) && words != []
    ensures IsCapWord(words[0]) && CapWords(words[1..])
    ensures Concat(words) == words[0] + Concat(words[1..])
    ensures Concat(words)[0] == words[0][0] && !IsLower(Concat(words)[0])
  {
    assert words[0] in words;
    assert forall i :: 0 <= i < |words| - 1 ==> words[1..][i] == words[i + 1];
  }

  /** The first substitution does not match at `s[0]`. */
  lemma SeparateWordsSkip(s: string)
    requires s != [] && !(|s| >= 3 && s[0] != '\n' && IsUpper(s[1]) && IsLower(s[2]))
    ensures SeparateWords(s) == [s[0]] + SeparateWords(s[1..])
  {
  }

  /** The first substitution matches a lowercase letter, then a capitalised word. */
  lemma SeparateWordsAtWord(c: char, w: string, rest: string)
    requires IsLower(c) && IsCapWord(w)
    requires rest == [] || !IsLower(rest[0])
    ensures SeparateWords([c] + w + rest) == [c, '_'] + w + SeparateWords(rest)
  {
    var s := [c] + w + rest;
    assert s[1] == w[0] && s[2] == w[1];
    assert s[2..] == w[1..] + rest;
    LowerRunOf(w[1..], rest);
    assert s[1..|w| + 1] == w && s[|w| + 1..] == rest;
  }

  /** The first substitution puts an `_` before the first, third, fifth... capitalised word. */
  lemma {:induction false} SeparateWordsOfCamel(first: string, words: seq<string>)
    requires IsLowerWord(first) && CapWords(words)
    ensures SeparateWords(first + Concat(words)) == first + Alternating(words, true)
    decreases |first + Concat(words)|, 3
  {
    if |first| >= 2 {
      var c := Concat(words);
      HeadIdentity(first, c, Alternating(words, true));
      SeparateWordsPair(first[0], first[1], first[2..] + c);
      LowerWordTail(first);
      SeparateWordsOfCamel(first[1..], words);
    } else if words == [] {
      assert first + Concat(words) == [first[0]];
      SeparateWordsSkip([first[0]]);
    } else {
      SeparateWordsAtBoundary(first, words);
    }
  }

  /** The last letter of the lowercase run and the capitalised word after it. */
  lemma {:induction false} SeparateWordsAtBoundary(first: string, words: seq<string>)
    requires IsLowerWord(first) && |first| == 1 && CapWords(words) && words != []
    ensures SeparateWords(first + Concat(words)) == first + Alternating(words, true)
    decreases |first + Concat(words)|, 2
  {
    CapWordsTail(words);
    var w, rest := words[0], Concat(words[1..]);
    AlternatingUnfold(words, true);
    BoundaryIdentity(first, w, rest, Alternating(words[1..], false));
    SeparateWordsAtWord(first[0], w, rest);
    SeparateWordsOfCapWords(words[1..]);
  }

  /** Capitalised words the scan reaches with no match pending: every other one gets an `_`. */
  lemma {:induction false} SeparateWordsOfCapWords(words: seq<string>)
    requires CapWords(words)
    ensures SeparateWords(Concat(words)) == Alternating(words, false)
    decreases |Concat(words)|, 1
  {
    if words != [] {
      CapWordsTail(words);
      AlternatingUnfold(words, false);
      assert "" + words[0] + Alternating(words[1..], true) == words[0] + Alternating(words[1..], true);
      SeparateWordsOfCapWord(words[0], words[1..]);
    }
  }

  /** A capitalised word that the scan reaches with no match pending is copied, and the scan goes on. */
  lemma {:induction false} SeparateWordsOfCapWord(v: string, words: seq<string>)
    requires IsCapWord(v) && CapWords(words)
    ensures SeparateWords(v + Concat(words)) == v + Alternating(words, true)
    decreases |v + Concat(words)|, 0
  {
    var c := Concat(words);
    HeadIdentity(v, c, Alternating(words, true));
    SeparateWordsPair(v[0], v[1], v[2..] + c);
    SeparateWordsOfCamel(v[1..], words);
  }

  /** The first substitution passes over a character not followed by a capital. */
  lemma SeparateWordsPair(c: char, d: char, z: string)
    requires !IsUpper(d)
    ensures SeparateWords([c] + ([d] + z)) == [c] + SeparateWords([d] + z)
  {
    assert ([c] + ([d] + z))[1..] == [d] + z;
  }

  lemma LowerWordTail(w: string)
    requires IsLowerWord(w) && |w| >= 2
    ensures IsLowerWord(w[1..])
  {
    assert forall i :: 0 <= i < |w[1..]| ==> w[1..][i] == w[i + 1];
  }

  lemma HeadIdentity(w: string, x: string, y: string)
    requires |w| >= 2
    ensures w + x == [w[0]] + ([w[1]] + (w[2..] + x))
    ensures w[1..] + x == [w[1]] + (w[2..] + x)
    ensures [w[0]] + (w[1..] + y) == w + y
  {
    assert w == [w[0]] + ([w[1]] + w[2..]);
    assert w[1..] == [w[1]] + w[2..];
  }

  lemma BoundaryIdentity(first: string, w: string, x: string, y: string)
    requires |first| == 1
    ensures first + (w + x) == [first[0]] + w + x
    ensures [first[0], '_'] + w + y == first + ("_" + w + y)
  {
    assert first == [first[0]];
  }

  /** The second substitution does not match at `s[0]`. */
  lemma SeparateLowerUpperSkip(s: string)
    requires s != [] && !(|s| >= 2 && (IsLower(s[0]) || IsDigit(s[0])) && IsUpper(s[1]))
    ensures SeparateLowerUpper(s) == [s[0]] + SeparateLowerUpper(s[1..])
  {
  }

  /** The second substitution matches at `s[0]`. */
  lemma SeparateLowerUpperMatch(s: string)
    requires |s| >= 2 && (IsLower(s[0]) || IsDigit(s[0])) && IsUpper(s[1])
    ensures SeparateLowerUpper(s) == [s[0], '_', s[1]] + SeparateLowerUpper(s[2..])
  {
  }

  /** The second substitution puts an `_` before the remaining capitalised words. */
  lemma {:induction false} SeparateLowerUpperOfAlternating(first: string, words: seq<string>, sep: bool)
    requires IsLowerWord(first) && CapWords(words)
    ensures SeparateLowerUpper(first + Alternating(words, sep)) == first + Underscored(words)
    decreases |first| + |Concat(words)|, 2
  {
    if |first| >= 2 {
      var a := Alternating(words, sep);
      HeadIdentity(first, a, Underscored(words));
      SeparateLowerUpperPair(first[0], first[1], first[2..] + a);
      LowerWordTail(first);
      SeparateLowerUpperOfAlternating(first[1..], words, sep);
    } else if words == [] {
      assert first + Alternating(words, sep) == [first[0]];
      SeparateLowerUpperSkip([first[0]]);
    } else if sep {
      SeparateLowerUpperAtSeparated(first, words);
    } else {
      assert first == [first[0]];
      SeparateLowerUpperAtJoined(first[0], words);
    }
  }

  /** A word the first substitution already separated is left alone by the second. */
  lemma {:induction false} SeparateLowerUpperAtSeparated(first: string, words: seq<string>)
    requires IsLowerWord(first) && |first| == 1 && CapWords(words) && words != []
    ensures SeparateLowerUpper(first + Alternating(words, true)) == first + Underscored(words)
    decreases |first| + |Concat(words)|, 1
  {
    CapWordsTail(words);
    var w, rest := words[0], words[1..];
    var more, u := Alternating(rest, false), Underscored(rest);
    AlternatingUnfold(words, true);
    UnderscoredUnfold(words);
    SeparatedIdentity(first, w, more, u);
    SeparateLowerUpperPair(first[0], '_', [w[0]] + (w[1..] + more));
    SeparateLowerUpperCons('_', [w[0]] + (w[1..] + more));
    SeparateLowerUpperCons(w[0], w[1..] + more);
    SeparateLowerUpperOfAlternating(w[1..], rest, false);
  }

  /** A word the first substitution left joined is separated by the second. */
  lemma {:induction false} SeparateLowerUpperAtJoined(c: char, words: seq<string>)
    requires IsLower(c) && CapWords(words) && words != []
    ensures SeparateLowerUpper([c] + Alternating(words, false)) == [c] + Underscored(words)
    decreases 1 + |Concat(words)|, 1
  {
    CapWordsTail(words);
    var w, rest := words[0], words[1..];
    var more, u := Alternating(rest, true), Underscored(rest);
    AlternatingUnfold(words, false);
    UnderscoredUnfold(words);
    JoinedIdentity(c, w, more, u);
    SeparateLowerUpperMatchPair(c, w[0], w[1..] + more);
    SeparateLowerUpperOfAlternating(w[1..], rest, true);
  }

  lemma AlternatingUnfold(words: seq<string>, sep: bool)
    requires words != []
    ensures Alternating(words, sep) == (if sep then "_" else "") + words[0] + Alternating(words[1..], !sep)
  {
  }

  lemma UnderscoredUnfold(words: seq<string>)
    requires words != []
    ensures Underscored(words) == "_" + words[0] + Underscored(words[1..])
  {
  }

  /** The second substitution passes over a character that is not a lowercase letter or a digit. */
  lemma SeparateLowerUpperCons(c: char, z: string)
    requires !IsLower(c) && !IsDigit(c)
    ensures SeparateLowerUpper([c] + z) == [c] + SeparateLowerUpper(z)
  {
    assert ([c] + z)[1..] == z;
  }

  /** The second substitution passes over a character not followed by a capital. */
  lemma SeparateLowerUpperPair(c: char, d: char, z: string)
    requires !IsUpper(d)
    ensures SeparateLowerUpper([c] + ([d] + z)) == [c] + SeparateLowerUpper([d] + z)
  {
    assert ([c] + ([d] + z))[1..] == [d] + z;
  }

  /** The second substitution separates a lowercase letter or digit from the capital after it. */
  lemma SeparateLowerUpperMatchPair(c: char, d: char, z: string)
    requires (IsLower(c) || IsDigit(c)) && IsUpper(d)
    ensures SeparateLowerUpper([c, d] + z) == [c, '_', d] + SeparateLowerUpper(z)
  {
    assert ([c, d] + z)[2..] == z;
  }

  lemma SeparatedIdentity(first: string, w: string, x: string, y: string)
    requires |first| == 1 && |w| >= 1
    ensures first + ("_" + w + x) == [first[0]] + (['_'] + ([w[0]] + (w[1..] + x)))
    ensures [first[0]] + (['_'] + ([w[0]] + (w[1..] + y))) == first + ("_" + w + y)
  {
    assert first == [first[0]];
    assert w == [w[0]] + w[1..];
  }

  lemma JoinedIdentity(c: char, w: string, x: string, y: string)
    requires |w| >= 1
    ensures [c] + ("" + w + x) == [c, w[0]] + (w[1..] + x)
    ensures [c, '_', w[0]] + (w[1..] + y) == [c] + ("_" + w + y)
  {
    assert w == [w[0]] + w[1..];
  }

  lemma {:induction false} JoinUnderscored(first: string, words: seq<string>)
    ensures Join([first] + words, '_') == first + Underscored(words)
    decreases |words|
  {
    if words != [] {
      assert ([first] + words)[1..] == words;
      JoinUnderscored(words[0], words[1..]);
      assert [words[0]] + words[1..] == words;
    }
  }

  lemma {:induction false} UpperJoin(parts: seq<string>)
    ensures Upper(Join(parts, '_')) == Join(UpperAll(parts), '_')
  {
    if |parts| > 1 {
      UpperJoin(parts[1..]);
      assert UpperAll(parts)[1..] == UpperAll(parts[1..]);
      UpperAppend(parts[0] + ['_'], Join(parts[1..], '_'));
      UpperAppend(parts[0], ['_']);
    }
  }

  lemma UpperAppend(a: string, b: string)
    ensures Upper(a + b) == Upper(a) + Upper(b)
  {
  }

  /**
   * camelCase to UPPER_SNAKE_CASE on a name made of words: the words
   * uppercased and joined with `_`.
   */
  lemma CamelToUpperOfWords(first: string, words: seq<string>)
    requires IsLowerWord(first) && CapWords(words)
    ensures CamelToUpper(first + Concat(words)) == Join(UpperAll([first] + words), '_')
  {
    SeparateWordsOfCamel(first, words);
    SeparateLowerUpperOfAlternating(first, words, true);
    JoinUnderscored(first, words);
    UpperJoin([first] + words);
  }

  lemma {:induction false} TitleOfLetters(s: string)
    requires forall i :: 0 <= i < |s| ==> IsCased(s[i])
    ensures TitleFrom(s, true) == Lower(s)
  {
    if s != [] {
      TitleOfLetters(s[1..]);
    }
  }

  /** `title()` of an uppercased word gives its capital followed by its lowercase letters. */
  lemma TitleOfUpper(w: string)
    requires IsLowerWord(w) || IsCapWord(w)
    ensures Title(Upper(w)) == [ToUpper(w[0])] + w[1..]
  {
    var u := Upper(w);
    UpperTail(w);
    assert IsLowerWord(w[1..]) || w[1..] == [];
    LowerOfUpper(w[1..]);
    TitleOfLetters(u[1..]);
  }

  lemma UpperTail(w: string)
    requires w != []
    ensures Upper(w)[1..] == Upper(w[1..])
  {
  }

  /** Lowercasing undoes uppercasing on lowercase letters. */
  lemma LowerOfUpper(t: string)
    requires forall i :: 0 <= i < |t| ==> IsLower(t[i])
    ensures Lower(Upper(t)) == t
    ensures forall i :: 0 <= i < |t| ==> IsCased(Upper(t)[i])
  {
  }

  /** The uppercased words joined with `_` are all uppercase, and split back into the words. */
  lemma SnakeOfWords(first: string, words: seq<string>)
    requires IsLowerWord(first) && CapWords(words)
    ensures var u := Join(UpperAll([first] + words), '_');
            && !IsCamelCase(u)
            && Split(u, '_') == UpperAll([first] + words)
  {
    var parts := [first] + words;
    var u := Join(UpperAll(parts), '_');
    CamelToUpperOfWords(first, words);
    assert Upper(u) == u by {
      UpperTwice(SeparateLowerUpper(SeparateWords(first + Concat(words))));
    }
    forall i | 0 <= i < |UpperAll(parts)|
      ensures '_' !in UpperAll(parts)[i]
    {
      if i > 0 {
        assert parts[i] == words[i - 1];
        assert IsCapWord(words[i - 1]);
        assert forall k :: 1 <= k < |parts[i]| ==> parts[i][1..][k - 1] == parts[i][k];
      }
      assert forall k :: 0 <= k < |parts[i]| ==> IsCased(parts[i][k]);
    }
    JoinSplit(UpperAll(parts), '_');
  }

  lemma UpperTwice(s: string)
    ensures Upper(Upper(s)) == Upper(s)
  {
  }

  /** Title-casing the uppercased words gives the camelCase words, the first one capitalised. */
  lemma TitledWords(first: string, words: seq<string>)
    requires IsLowerWord(first) && CapWords(words)
    ensures var parts := UpperAll([first] + words);
            Concat(TitleAll(parts))
            == [ToUpper(first[0])] + first[1..] + Concat(words)
  {
    var parts := UpperAll([first] + words);
    var titled := TitleAll(parts);
    TitleOfUpper(first);
    assert titled[0] == [ToUpper(first[0])] + first[1..];
    forall i | 0 <= i < |words|
      ensures titled[1..][i] == words[i]
    {
      assert titled[1..][i] == Title(Upper(words[i]));
      TitleOfUpper(words[i]);
      assert [words[i][0]] + words[i][1..] == words[i];
    }
    assert titled[1..] == words;
    assert titled == [titled[0]] + words;
  }

  /** UPPER_SNAKE_CASE to camelCase on the uppercased words joined with `_` gives the camelCase name. */
  lemma UpperToCamelOfSnake(first: string, words: seq<string>)
    requires IsLowerWord(first) && CapWords(words)
    ensures UpperToCamel(Join(UpperAll([first] + words), '_')) == first + Concat(words)
  {
    var parts := UpperAll([first] + words);
    var u := Join(parts, '_');
    SnakeOfWords(first, words);
    TitledWords(first, words);
    var titled := TitleAll(parts);
    assert UpperToCamel(u) == MakeFirstLetterLowercase(Concat(titled));
    LowercasedCapital(first, Concat(words));
  }

  /** Lowercasing the capital put back at the head of a lowercase word gives the word back. */
  lemma LowercasedCapital(first: string, rest: string)
    requires IsLowerWord(first)
    ensures MakeFirstLetterLowercase([ToUpper(first[0])] + first[1..] + rest) == first + rest
  {
    var c := [ToUpper(first[0])] + first[1..] + rest;
    var r := MakeFirstLetterLowercase(c);
    assert IsLower(first[0]);
    assert r[0] == first[0];
    assert r[1..] == first[1..] + rest;
    assert r == [r[0]] + r[1..];
    assert [first[0]] + first[1..] == first;
  }

  /**
   * UPPER_SNAKE_CASE to camelCase undoes camelCase to UPPER_SNAKE_CASE on a
   * name made of words, and the other way round on the uppercased words
   * joined with `_`.
   */
  lemma UpperToCamelOfWords(first: string, words: seq<string>)
    requires IsLowerWord(first) && CapWords(words)
    ensures UpperToCamel(CamelToUpper(first + Concat(words))) == first + Concat(words)
    ensures CamelToUpper(UpperToCamel(Join(UpperAll([first] + words), '_'))) == Join(UpperAll([first] + words), '_')
  {
    UpperToCamelOfSnake(first, words);
    CamelToUpperOfWords(first, words);
  }

  /** The words of the name the property converter tests convert, uppercased and joined with `_`. */
  lemma ExampleSnake()
    ensures Join(UpperAll(["my", "String", "To", "Convert"]), '_') == "MY_STRING_TO_CONVERT"
  {
    ExampleUpperAll();
    ExampleJoin();
  }

  lemma ExampleCapWords()
    ensures CapWords(["String", "To", "Convert"])
  {
    var words := ["String", "To", "Convert"];
    assert IsCapWord(words[0]) && IsCapWord(words[1]) && IsCapWord(words[2]);
  }

  lemma ExampleConcat()
    ensures "my" + Concat(["String", "To", "Convert"]) == "myStringToConvert"
  {
    var words := ["String", "To", "Convert"];
    assert words[1..] == ["To", "Convert"];
    assert words[1..][1..] == ["Convert"];
    assert Concat(["Convert"]) == "Convert";
    assert Concat(["To", "Convert"]) == "ToConvert";
  }

  lemma ExampleUpperAll()
    ensures UpperAll(["my", "String", "To", "Convert"]) == ["MY", "STRING", "TO", "CONVERT"]
  {
    assert Upper("my") == "MY";
    assert Upper("String") == "STRING";
    assert Upper("To") == "TO";
    assert Upper("Convert") == "CONVERT";
  }

  lemma ExampleJoin()
    ensures Join(["MY", "STRING", "TO", "CONVERT"], '_') == "MY_STRING_TO_CONVERT"
  {
    var parts := ["MY", "STRING", "TO", "CONVERT"];
    assert parts[1..] == ["STRING", "TO", "CONVERT"];
    assert parts[1..][1..] == ["TO", "CONVERT"];
    assert parts[1..][1..][1..] == ["CONVERT"];
    assert Join(["TO", "CONVERT"], '_') == "TO_CONVERT";
    assert Join(["STRING", "TO", "CONVERT"], '_') == "STRING_TO_CONVERT";
  }

  /** The names the property converter tests convert, in both directions. */
  lemma ConversionExamples()
    ensures CamelToUpper("myStringToConvert") == "MY_STRING_TO_CONVERT"
    ensures UpperToCamel("MY_STRING_TO_CONVERT") == "myStringToConvert"
  {
    var words := ["String", "To", "Convert"];
    ExampleCapWords();
    ExampleConcat();
    assert ["my"] + words == ["my", "String", "To", "Convert"];
    ExampleSnake();
    UpperToCamelOfSnake("my", words);
    CamelToUpperOfWords("my", words);
  }
}
