/**
 * A decoded JSON value, as `json.loads` returns it (numbers are integers), with the Python operations
 * the operators apply to it: truth value, `key in value`, `len`, `value[0]`,
 * `value[key]` and `str(value)`. Decoding and encoding themselves are oracles
 * (`Codec`): the model does not parse JSON text.
 */
module Json {
  import opened Wrappers
  import opened Exceptions
  import Text
  import Dicts

  datatype Json =
    | Null
    | Bool(b: bool)
    | Num(n: int)
    | Str(s: string)
    | Arr(items: seq<Json>)
    | Obj(members: Dicts.Dict<Json>)

  /**
   * `json.loads` (None for text that does not decode) and `json.dumps`;
   * `response.json()` decodes a response's text with `loads`.
   */
  datatype Codec = Codec(loads: string -> Option<Json>, dumps: Json -> string)

  /**
   * Every object inside the value, at any depth, has distinct keys: the
   * values `json.loads` returns and the dicts a Python caller builds.
   */
  predicate WellFormed(j: Json)
    decreases j
  {
    match j
    case Arr(items) => forall i :: 0 <= i < |items| ==> WellFormed(items[i])
    case Obj(members) => Dicts.Valid(members) && forall i :: 0 <= i < |members| ==> WellFormed(members[i].1)
    case _ => true
  }

  /** Encoding and then decoding gives a well-formed value back. */
  ghost predicate RoundTrips(codec: Codec)
  {
    forall j | WellFormed(j) :: codec.loads(codec.dumps(j)) == Some(j)
  }

  /** A Python object holding a JSON value that the callee may change in place. */
  class Ref {
    var value: Json

    constructor (v: Json)
      ensures value == v
    {
      value := v;
    }
  }

  /** Python's truth value. */
  predicate Truthy(j: Json)
  {
    match j
    case Null => false
    case Bool(b) => b
    case Num(n) => n != 0
    case Str(s) => s != ""
    case Arr(items) => items != []
    case Obj(members) => members != []
  }

  /**
   * `key in j`: a key of an object, an element of a list, a substring of a
   * string; a TypeError for a number, a boolean or None.
   */
  function Contains(j: Json, key: string): (r: Result<bool>)
    ensures j.Obj? ==> r == Ok(key in Dicts.Keys(j.members))
    ensures j.Arr? ==> r == Ok(Str(key) in j.items)
    ensures j.Str? ==> r == Ok(Text.IsSubstring(key, j.s))
    ensures r.Err? <==> j.Null? || j.Bool? || j.Num?
  {
    match j
    case Obj(members) => Ok(key in Dicts.Keys(members))
    case Arr(items) => Ok(Str(key) in items)
    case Str(s) => Ok(Text.IsSubstring(key, s))
    case _ => Err(TypeErr)
  }

  /** `len(j)` */
  function Len(j: Json): Result<nat>
  {
    match j
    case Obj(members) => Ok(|members|)
    case Arr(items) => Ok(|items|)
    case Str(s) => Ok(|s|)
    case _ => Err(TypeErr)
  }

  /**
   * `j[0]`: the first element of a list or character of a string; an object
   * decoded from JSON has no integer key.
   */
  function First(j: Json): (r: Result<Json>)
    ensures j.Arr? && j.items != [] ==> r == Ok(j.items[0])
  {
    match j
    case Arr(items) => if items == [] then Err(IndexErr) else Ok(items[0])
    case Str(s) => if s == "" then Err(IndexErr) else Ok(Str(s[..1]))
    case Obj(_) => Err(KeyErr)
    case _ => Err(TypeErr)
  }

  /** `j[key]` for a string key. */
  function Field(j: Json, key: string): (r: Result<Json>)
    ensures r.Ok? ==> j.Obj? && Dicts.Get(j.members, key) == Some(r.value)
    ensures j.Obj? && key in Dicts.Keys(j.members) ==> r.Ok?
  {
    match j
    case Obj(members) =>
      var v := Dicts.Get(members, key);
      if v.Some? then Ok(v.value) else Err(KeyErr)
    case _ => Err(TypeErr)
  }

  /** `str(j)`; a string is its own text. */
  function ToStr(j: Json): string
  {
    if j.Str? then j.s else Repr(j)
  }

  /**
   * A character `repr` writes as itself: not a control character, DEL, a C1
   * control, the no-break space or the soft hyphen. Above U+00FF every
   * character is taken to be printable.
   */
  predicate Unescaped(c: char)
  {
    ' ' <= c && c != '\U{7F}' && !('\U{80}' <= c <= '\U{A0}') && c != '\U{AD}'
  }

  /** The quote `repr` puts around a string: double only when it holds a single quote and no double one. */
  function QuoteFor(s: string): char
  {
    if '\'' in s && '"' !in s then '"' else '\''
  }

  function HexDigit(n: nat): char
    requires n < 16
  {
    "0123456789abcdef"[n]
  }

  /** One character of a string inside `repr`'s quotes. */
  function EscapeChar(c: char, quote: char): (r: string)
    requires Unescaped(quote)
    ensures forall i :: 0 <= i < |r| ==> Unescaped(r[i])
  {
    if c == quote || c == '\\' then ['\\', c]
    else if c == '\t' then "\\t"
    else if c == '\n' then "\\n"
    else if c == '\r' then "\\r"
    else if !Unescaped(c) then ['\\', 'x', HexDigit(c as int / 16), HexDigit(c as int % 16)]
    else [c]
  }

  /** The characters of a string as `repr` writes them between its quotes. */
  function EscapeAll(s: string, quote: char): (r: string)
    requires Unescaped(quote)
    ensures forall i :: 0 <= i < |r| ==> Unescaped(r[i])
    ensures (forall i :: 0 <= i < |s| ==> Unescaped(s[i]) && s[i] != quote && s[i] != '\\') ==> r == s
    decreases |s|
  {
    if s == [] then []
    else
      var head := EscapeChar(s[0], quote);
      var tail := EscapeAll(s[1..], quote);
      assert forall i :: 0 <= i < |tail| ==> (head + tail)[|head| + i] == tail[i];
      head + tail
  }

  /**
   * `repr(s)` for a string: between single quotes, or double ones when the
   * string holds a single quote and no double one; the chosen quote and the
   * backslash are escaped, tab, line feed and carriage return become `\t`,
   * `\n` and `\r`, and other unprintable characters `\xHH`.
   */
  function StrRepr(s: string): (r: string)
    ensures |r| >= 2 && r[0] == QuoteFor(s) && r[|r| - 1] == QuoteFor(s)
    ensures forall i :: 0 <= i < |r| ==> Unescaped(r[i])
    ensures (forall i :: 0 <= i < |s| ==> Unescaped(s[i]) && s[i] != '\'' && s[i] != '"' && s[i] != '\\') ==>
              r == "'" + s + "'"
  {
    var q := QuoteFor(s);
    var body := EscapeAll(s, q);
    assert forall i :: 0 <= i < |body| ==> ([q] + body + [q])[i + 1] == body[i];
    [q] + body + [q]
  }

  /** `repr(j)`: Python's text for a decoded value. */
  function Repr(j: Json): string
    decreases j, 1
  {
    match j
    case Null => "None"
    case Bool(b) => if b then "True" else "False"
    case Num(n) => Text.IntToString(n)
    case Str(s) => StrRepr(s)
    case Arr(items) => "[" + ReprItems(j, items) + "]"
    case Obj(members) => "{" + ReprMembers(j, members) + "}"
  }

  function ReprItems(ghost parent: Json, items: seq<Json>): string
    requires forall x :: x in items ==> x < parent
    decreases parent, 0, |items|
  {
    if items == [] then ""
    else
      assert items[0] in items;
      assert forall x :: x in items[1..] ==> x in items;
      Repr(items[0]) + (if |items| == 1 then "" else ", " + ReprItems(parent, items[1..]))
  }

  function ReprMembers(ghost parent: Json, members: Dicts.Dict<Json>): string
    requires forall m :: m in members ==> m.1 < parent
    decreases parent, 0, |members|
  {
    if members == [] then ""
    else
      assert members[0] in members;
      assert forall m :: m in members[1..] ==> m in members;
      StrRepr(members[0].0) + ": " + Repr(members[0].1)
      + (if |members| == 1 then "" else ", " + ReprMembers(parent, members[1..]))
  }

  /**
   * Every character of a value's `repr` is printable, so a nested value never
   * carries a line break into the text `str()` gives.
   */
  lemma {:induction false} ReprUnescaped(j: Json)
    ensures forall i :: 0 <= i < |Repr(j)| ==> Unescaped(Repr(j)[i])
    decreases j, 1
  {
    match j
    case Null =>
    case Bool(b) =>
    case Num(n) =>
      Text.IntToStringDigits(n);
    case Str(s) =>
    case Arr(items) =>
      ItemsUnescaped(j, items);
      AllUnescapedConcat("[", ReprItems(j, items), "]");
    case Obj(members) =>
      MembersUnescaped(j, members);
      AllUnescapedConcat("{", ReprMembers(j, members), "}");
  }

  lemma {:induction false} ItemsUnescaped(parent: Json, items: seq<Json>)
    requires forall x :: x in items ==> x < parent
    ensures forall i :: 0 <= i < |ReprItems(parent, items)| ==> Unescaped(ReprItems(parent, items)[i])
    decreases parent, 0, |items|
  {
    if items != [] {
      assert items[0] in items;
      assert forall x :: x in items[1..] ==> x in items;
      ReprUnescaped(items[0]);
      if |items| > 1 {
        ItemsUnescaped(parent, items[1..]);
        AllUnescapedConcat(Repr(items[0]), ", ", ReprItems(parent, items[1..]));
      }
    }
  }

  lemma {:induction false} MembersUnescaped(parent: Json, members: Dicts.Dict<Json>)
    requires forall m :: m in members ==> m.1 < parent
    ensures forall i :: 0 <= i < |ReprMembers(parent, members)| ==> Unescaped(ReprMembers(parent, members)[i])
    decreases parent, 0, |members|
  {
    if members != [] {
      assert members[0] in members;
      assert forall m :: m in members[1..] ==> m in members;
      ReprUnescaped(members[0].1);
      AllUnescapedConcat(StrRepr(members[0].0), ": ", Repr(members[0].1));
      if |members| > 1 {
        MembersUnescaped(parent, members[1..]);
        AllUnescapedConcat(StrRepr(members[0].0) + ": " + Repr(members[0].1), ", ", ReprMembers(parent, members[1..]));
      }
    }
  }

  lemma AllUnescapedConcat(a: string, b: string, c: string)
    requires forall i :: 0 <= i < |a| ==> Unescaped(a[i])
    requires forall i :: 0 <= i < |b| ==> Unescaped(b[i])
    requires forall i :: 0 <= i < |c| ==> Unescaped(c[i])
    ensures forall i :: 0 <= i < |a + b + c| ==> Unescaped((a + b + c)[i])
  {
  }

  /** A string with a single quote and no double one is put between double quotes. */
  lemma QuoteExample()
    ensures StrRepr("it's") == "\"it's\""
  {
    var s := "it's";
    assert s[2] == '\'';
    assert '"' !in s by {
      assert forall i :: 0 <= i < |s| ==> s[i] in {'i', 't', '\'', 's'};
    }
    assert QuoteFor(s) == '"';
    assert EscapeAll(s, '"') == s;
  }

  /** A line break inside a nested string is written as the two characters `\n`. */
  lemma LineBreakExample()
    ensures StrRepr("a\nb") == "'a\\nb'"
  {
    assert QuoteFor("a\nb") == '\'';
    assert EscapeAll("b", '\'') == "b";
    assert "a\nb"[1..] == "\nb" && "\nb"[1..] == "b";
    assert EscapeAll("\nb", '\'') == "\\nb";
  }

  lemma KeyExample()
    ensures StrRepr("a") == "'a'"
  {
    assert QuoteFor("a") == '\'';
    assert EscapeAll("a", '\'') == "a";
  }

  /** A one-entry dict is its key's and its value's `repr` between braces. */
  lemma SingleMemberRepr(key: string, value: Json)
    ensures Repr(Obj([(key, value)])) == "{" + StrRepr(key) + ": " + Repr(value) + "}"
  {
    var m := [(key, value)];
    assert m[0] in m;
    assert ReprMembers(Obj(m), m) == StrRepr(key) + ": " + Repr(value);
  }

  /** A list holding a string with a line break, as `str()` writes it: still one line. */
  lemma LineBreakItemExample()
    ensures Repr(Arr([Str("a\nb")])) == "['a\\nb']"
  {
    LineBreakExample();
    var items := [Str("a\nb")];
    assert ReprItems(Arr(items), items) == "'a\\nb'";
  }
}
