/**
 * The exception kinds of the client and how they render as text.
 *
 * The four classes of rptrc/src/etc/exceptions.py that define `__str__` prefix
 * their message with their kind; `FatalException` renders as the bare message.
 * The operators can also let through an exception of the `requests` library or
 * one of Python's built-in errors; those are kinds of `Error` as well, so that
 * every raise of the source is an `Err` of the model.
 */
module Exceptions {
  import opened Wrappers

  /** The four exception classes whose `__str__` adds a prefix. */
  datatype Kind = KeyValuePairsNotSet | InDirectoryNotSet | InFileNotSet | PropertyConversion

  datatype Error =
    | Custom(kind: Kind, message: Option<string>)
    | Fatal(message: Option<string>)
    /** requests.exceptions.RequestException raised by the retry helper */
    | RequestError(message: Option<string>)
    /** any other exception escaping the `requests` library (connection refused, socket timeout, ...) */
    | TransportError
    /** Python's built-in KeyError, IndexError, TypeError and AttributeError */
    | KeyErr
    | IndexErr
    | TypeErr
    | AttributeErr
    /** an OSError from the file system */
    | OsError

  datatype Result<+T> = Ok(value: T) | Err(error: Error) {

    predicate IsFailure() { Err? }

    function PropagateFailure<U>(): Result<U>
      requires Err?
    {
      Err(error)
    }

    function Extract(): T
      requires Ok?
    {
      value
    }
  }

  /** A raise of `FatalException(message)`. */
  function FatalError(message: string): Error
  {
    Fatal(Some(message))
  }

  function KindName(k: Kind): string
  {
    match k
    case KeyValuePairsNotSet => "Key Value Pairs Not Set"
    case InDirectoryNotSet => "In Directory Not Set"
    case InFileNotSet => "In File Not Set"
    case PropertyConversion => "Property Conversion"
  }

  /** Python's truth value of the stored message: `None` and `''` are false. */
  predicate HasMessage(m: Option<string>)
  {
    m.Some? && m.value != ""
  }

  /** `str(e)`: the text a test compares with `str(exception.value)`. */
  function Render(e: Error): (s: string)
    ensures e.Custom? && HasMessage(e.message) ==> s == KindName(e.kind) + " Exception, " + e.message.value
    ensures e.Custom? && !HasMessage(e.message) ==> s == KindName(e.kind) + " Exception has been raised"
    ensures e.Fatal? && e.message.Some? ==> s == e.message.value
  {
    match e
    case Custom(k, m) =>
      if HasMessage(m) then KindName(k) + " Exception, " + m.value
      else KindName(k) + " Exception has been raised"
    // Exception.__str__ of a single argument is str() of that argument
    case Fatal(m) => if m.Some? then m.value else "None"
    case RequestError(m) => if m.Some? then m.value else ""
    case TransportError => "transport error"
    case KeyErr => "KeyError"
    case IndexErr => "IndexError"
    case TypeErr => "TypeError"
    case AttributeErr => "AttributeError"
    case OsError => "OSError"
  }

  /**
   * Reads back the kind and the message from the text of a custom exception;
   * None when the text is not such a rendering.
   */
  function ParseRendered(s: string): Option<(Kind, Option<string>)>
  {
    ParseAs(s, [KeyValuePairsNotSet, InDirectoryNotSet, InFileNotSet, PropertyConversion])
  }

  function ParseAs(s: string, kinds: seq<Kind>): Option<(Kind, Option<string>)>
  {
    if kinds == [] then None
    else
      var with := KindName(kinds[0]) + " Exception, ";
      if s == KindName(kinds[0]) + " Exception has been raised" then Some((kinds[0], None))
      else if |with| < |s| && s[..|with|] == with then Some((kinds[0], Some(s[|with|..])))
      else ParseAs(s, kinds[1..])
  }

  /**
   * The rendering of a custom exception loses nothing: its text gives back the
   * kind and, when one was set, the message.
   */
  lemma RenderParses(k: Kind, m: Option<string>)
    ensures ParseRendered(Render(Custom(k, m))) == Some((k, if HasMessage(m) then m else None))
  {
    var rest2 := [InDirectoryNotSet, InFileNotSet, PropertyConversion];
    assert [KeyValuePairsNotSet] + rest2
           == [KeyValuePairsNotSet, InDirectoryNotSet, InFileNotSet, PropertyConversion];
    match k
    case KeyValuePairsNotSet => ParseHit(k, m, KeyValuePairsNotSet, rest2);
    case InDirectoryNotSet => ParseSecond(m, rest2);
    case InFileNotSet => ParseThird(m, rest2);
    case PropertyConversion => ParseFourth(m, rest2);
  }

  // the names of the kinds tried before k differ from k's name at index 0 or 3

  lemma ParseSecond(m: Option<string>, rest2: seq<Kind>)
    requires rest2 == [InDirectoryNotSet, InFileNotSet, PropertyConversion]
    ensures ParseAs(Render(Custom(InDirectoryNotSet, m)), [KeyValuePairsNotSet] + rest2)
            == Some((InDirectoryNotSet, if HasMessage(m) then m else None))
  {
    var k := InDirectoryNotSet;
    NameLetters();
    var rest3 := [InFileNotSet, PropertyConversion];
    assert rest2 == [InDirectoryNotSet] + rest3;
    ParseSkip(k, m, KeyValuePairsNotSet, rest2, 0);
    ParseHit(k, m, InDirectoryNotSet, rest3);
  }

  lemma ParseThird(m: Option<string>, rest2: seq<Kind>)
    requires rest2 == [InDirectoryNotSet, InFileNotSet, PropertyConversion]
    ensures ParseAs(Render(Custom(InFileNotSet, m)), [KeyValuePairsNotSet] + rest2)
            == Some((InFileNotSet, if HasMessage(m) then m else None))
  {
    var k := InFileNotSet;
    NameLetters();
    var rest3 := [InFileNotSet, PropertyConversion];
    assert rest2 == [InDirectoryNotSet] + rest3;
    assert rest3 == [InFileNotSet] + [PropertyConversion];
    ParseSkip(k, m, KeyValuePairsNotSet, rest2, 0);
    ParseSkip(k, m, InDirectoryNotSet, rest3, 3);
    ParseHit(k, m, InFileNotSet, [PropertyConversion]);
  }

  lemma ParseFourth(m: Option<string>, rest2: seq<Kind>)
    requires rest2 == [InDirectoryNotSet, InFileNotSet, PropertyConversion]
    ensures ParseAs(Render(Custom(PropertyConversion, m)), [KeyValuePairsNotSet] + rest2)
            == Some((PropertyConversion, if HasMessage(m) then m else None))
  {
    var k := PropertyConversion;
    NameLetters();
    var rest3 := [InFileNotSet, PropertyConversion];
    assert rest2 == [InDirectoryNotSet] + rest3;
    assert rest3 == [InFileNotSet] + [PropertyConversion];
    assert [PropertyConversion] == [PropertyConversion] + [];
    ParseSkip(k, m, KeyValuePairsNotSet, rest2, 0);
    ParseSkip(k, m, InDirectoryNotSet, rest3, 0);
    ParseSkip(k, m, InFileNotSet, [PropertyConversion], 0);
    ParseHit(k, m, PropertyConversion, []);
  }

  /** The letters that tell the kind names apart. */
  lemma NameLetters()
    ensures KindName(KeyValuePairsNotSet)[0] == 'K' && KindName(PropertyConversion)[0] == 'P'
    ensures KindName(InDirectoryNotSet)[0] == 'I' && KindName(InDirectoryNotSet)[3] == 'D'
    ensures KindName(InFileNotSet)[0] == 'I' && KindName(InFileNotSet)[3] == 'F'
  {
  }

  /** A kind whose name differs from k's at index i cannot match k's rendering. */
  lemma ParseSkip(k: Kind, m: Option<string>, first: Kind, rest: seq<Kind>, i: nat)
    requires i < |KindName(k)| && i < |KindName(first)| && KindName(k)[i] != KindName(first)[i]
    ensures ParseAs(Render(Custom(k, m)), [first] + rest) == ParseAs(Render(Custom(k, m)), rest)
  {
    var s := Render(Custom(k, m));
    var with := KindName(first) + " Exception, ";
    assert s[i] == KindName(k)[i];
    assert with[i] == KindName(first)[i];
    assert ([first] + rest)[1..] == rest;
  }

  lemma ParseHit(k: Kind, m: Option<string>, first: Kind, rest: seq<Kind>)
    requires first == k
    ensures ParseAs(Render(Custom(k, m)), [first] + rest) == Some((k, if HasMessage(m) then m else None))
  {
    var s, n := Render(Custom(k, m)), KindName(k);
    // after "<Kind> Exception" comes ',' with a message and ' ' without one
    assert s[|n| + 10] == if HasMessage(m) then ',' else ' ';
    if HasMessage(m) {
      var with := n + " Exception, ";
      assert s[..|with|] == with;
    }
  }

  lemma RenderCustomInjective(k1: Kind, m1: Option<string>, k2: Kind, m2: Option<string>)
    requires Render(Custom(k1, m1)) == Render(Custom(k2, m2))
    ensures k1 == k2
    ensures HasMessage(m1) == HasMessage(m2)
    ensures HasMessage(m1) ==> m1 == m2
  {
    RenderParses(k1, m1);
    RenderParses(k2, m2);
  }
}
