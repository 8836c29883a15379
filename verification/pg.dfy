/**
 * The text node-postgres, the driver under drizzle (lib/db.ts), sends for a
 * query parameter: its `prepareValue`. The handlers hand request values to
 * text columns and key comparisons unchecked, so this is the text the store
 * writes and compares. A string goes as is, a number or boolean in its
 * `String` form, a plain object as its JSON text, an array as a Postgres
 * array literal, and `undefined` or `null` as SQL NULL.
 */
module Pg {
  import opened Wrappers
  import opened Js

  /** An array element's text with every backslash and double quote backslash-escaped. */
  function Escape(s: string): (r: string)
    ensures |r| >= |s|
  {
    if s == [] then []
    else (if s[0] == '\\' || s[0] == '"' then ['\\', s[0]] else [s[0]]) + Escape(s[1..])
  }

  /**
   * Reads an escaped element text back: a backslash takes the next
   * character literally, and an unescaped double quote (which would end
   * the element) or a trailing lone backslash is refused.
   */
  function Unescape(t: string): (r: Option<string>)
    decreases |t|
  {
    if t == [] then Some([])
    else if t[0] == '\\' then
      if |t| < 2 then None
      else match Unescape(t[2..]) case None => None case Some(rest) => Some([t[1]] + rest)
    else if t[0] == '"' then None
    else match Unescape(t[1..]) case None => None case Some(rest) => Some([t[0]] + rest)
  }

  /** Escaping loses nothing: reading the escaped text back gives the original. */
  lemma {:induction false} UnescapeEscape(s: string)
    ensures Unescape(Escape(s)) == Some(s)
  {
    if s != [] {
      UnescapeEscape(s[1..]);
      var e := Escape(s);
      if s[0] == '\\' || s[0] == '"' {
        assert e == ['\\', s[0]] + Escape(s[1..]);
        assert e[2..] == Escape(s[1..]);
      } else {
        assert e == [s[0]] + Escape(s[1..]);
        assert e[1..] == Escape(s[1..]);
      }
      assert s == [s[0]] + s[1..];
    }
  }

  /** An element of an array literal: its escaped text in double quotes. */
  function Quote(s: string): (r: string)
    ensures |r| == |Escape(s)| + 2 && r[0] == '"' && r[|r| - 1] == '"'
  {
    "\"" + Escape(s) + "\""
  }

  /** The parameter text of a request value; None is SQL NULL. */
  function ParamText(v: Json): (r: Option<string>)
    decreases v
    ensures r.None? <==> v.Undefined? || v.Null?
    ensures v.Str? ==> r == Some(v.s)
    ensures v.Num? || v.Bool? ==> r == Some(ToJsString(v))
    ensures v.Obj? ==> r == Some(v.json)
    ensures v.Arr? ==> r.Some? && |r.value| >= 2 && r.value[0] == '{' && r.value[|r.value| - 1] == '}'
  {
    match v
    case Undefined => None
    case Null => None
    case Bool(_) => Some(ToJsString(v))
    case Num(_) => Some(ToJsString(v))
    case Str(s) => Some(s)
    case Obj(json) => Some(json)
    case Arr(es) => Some("{" + Elements(es) + "}")
  }

  /**
   * The inside of an array literal: the elements separated by commas,
   * `undefined` and `null` as `NULL`, a nested array as its own literal,
   * anything else quoted.
   */
  function Elements(es: seq<Json>): string
    decreases es
  {
    if es == [] then ""
    else
      var head := match es[0]
                  case Undefined => "NULL"
                  case Null => "NULL"
                  case Arr(_) => ParamText(es[0]).value
                  case _ => Quote(ParamText(es[0]).value);
      if |es| == 1 then head else head + "," + Elements(es[1..])
  }

  /**
   * A one-string array goes as the literal `{"…"}`, never as the string
   * itself, whereas JavaScript's `String` of the same array is the string.
   */
  lemma StringArrayText(s: string)
    ensures ParamText(Arr([Str(s)])) == Some("{" + Quote(s) + "}")
    ensures ParamText(Arr([Str(s)])).value != s
    ensures ToJsString(Arr([Str(s)])) == s
  {
    assert Elements([Str(s)]) == Quote(s);
    assert Join([Str(s)]) == s;
  }
}
