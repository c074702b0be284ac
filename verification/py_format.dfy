/**
 * Python's `template.format(**kwargs)` for the templates the generators read: `{name}` is
 * replaced by the keyword argument `name`, `{{` and `}}` stand for single braces, and a
 * missing name, an empty field or an unmatched brace raises.
 */
module PyFormat {
  import opened Wrappers

  /** The index of the first `c` in `s`, or `|s|` when there is none. */
  function IndexOf(s: string, c: char): (k: nat)
    ensures k <= |s|
    ensures k < |s| ==> s[k] == c
    ensures forall j :: 0 <= j < k ==> s[j] != c
  {
    if |s| == 0 then 0
    else if s[0] == c then 0
    else 1 + IndexOf(s[1..], c)
  }

  const SingleOpen := "Single '{' encountered in format string"
  const SingleClose := "Single '}' encountered in format string"
  const UnclosedField := "expected '}' before end of string"
  const OpenInField := "unexpected '{' in field name"

  /** The message (`str(e)`) of the exception a field naming no keyword argument raises: `KeyError`, or `IndexError` for `{}`. */
  function MissingField(name: string): string {
    if name == "" then "Replacement index 0 out of range for positional args tuple"
    else "'" + name + "'"
  }

  /**
   * `template.format(**args)`: the formatted text, or the message of the exception it
   * raises, in CPython's wording. A `{` that ends the template is a single brace; a field
   * holding a `{` before its first `}` is refused before anything else is checked, and a
   * field without a `}` is unclosed.
   */
  function Format(template: string, args: map<string, string>): Result<string, string>
    decreases |template|
  {
    if |template| == 0 then Ok("")
    else if template[0] == '{' then
      if |template| > 1 && template[1] == '{' then Prefix("{", Format(template[2..], args))
      else
        var k := IndexOf(template[1..], '}');
        if |template| == 1 then Err(SingleOpen)
        else if IndexOf(template[1..], '{') < k then Err(OpenInField)
        else if k == |template| - 1 then Err(UnclosedField)
        else
          var name := template[1..k + 1];
          if name in args then Prefix(args[name], Format(template[k + 2..], args))
          else Err(MissingField(name))
    else if template[0] == '}' then
      if |template| > 1 && template[1] == '}' then Prefix("}", Format(template[2..], args))
      else Err(SingleClose)
    else Prefix([template[0]], Format(template[1..], args))
  }

  /** Text in front of a formatted rest; an error stays the error. */
  function Prefix(s: string, r: Result<string, string>): Result<string, string> {
    if r.Ok? then Ok(s + r.value) else r
  }

  /** Text without braces is its own format, whatever the arguments. */
  lemma {:induction false} FormatLiteral(t: string, args: map<string, string>)
    requires '{' !in t && '}' !in t
    ensures Format(t, args) == Ok(t)
    decreases |t|
  {
    if |t| > 0 {
      FormatLiteral(t[1..], args);
      assert [t[0]] + t[1..] == t;
    }
  }

  /** Literal text followed by a template formats as the text followed by the template's format. */
  lemma {:induction false} FormatAfterLiteral(t: string, rest: string, args: map<string, string>)
    requires '{' !in t && '}' !in t
    ensures Format(t + rest, args) == Prefix(t, Format(rest, args))
    decreases |t|
  {
    if |t| == 0 {
      assert t + rest == rest;
      var r := Format(rest, args);
      if r.Ok? {
        assert t + r.value == r.value;
      }
    } else {
      assert (t + rest)[1..] == t[1..] + rest;
      FormatAfterLiteral(t[1..], rest, args);
      var r := Format(rest, args);
      if r.Ok? {
        assert [t[0]] + (t[1..] + r.value) == t + r.value;
      }
    }
  }

  /** The first `c` after a name without `c` is the one right after it. */
  lemma IndexAfterName(name: string, c: char, rest: string)
    requires c !in name
    ensures IndexOf(name + [c] + rest, c) == |name|
  {
    var s := name + [c] + rest;
    var k := IndexOf(s, c);
    assert s[|name|] == c;
    assert forall j :: 0 <= j < |name| ==> s[j] == name[j];
  }

  /** A field naming an argument is replaced by the argument, and formatting goes on after it. */
  lemma FormatField(name: string, rest: string, args: map<string, string>)
    requires '{' !in name && '}' !in name && name in args
    ensures Format("{" + name + "}" + rest, args) == Prefix(args[name], Format(rest, args))
  {
    var t := "{" + name + "}" + rest;
    assert t[1..] == name + "}" + rest;
    IndexAfterName(name, '{', "}" + rest);
    assert name + "}" + rest == name + ['}'] + rest;
    IndexAfterName(name, '}', rest);
    assert t[1..|name| + 1] == name;
    assert t[|name| + 2..] == rest;
  }

  /** A field naming no argument makes the whole format raise, whatever follows. */
  lemma FormatMissingField(name: string, rest: string, args: map<string, string>)
    requires '{' !in name && '}' !in name && name !in args
    ensures Format("{" + name + "}" + rest, args) == Err(MissingField(name))
  {
    var t := "{" + name + "}" + rest;
    assert t[1..] == name + "}" + rest;
    IndexAfterName(name, '{', "}" + rest);
    assert name + "}" + rest == name + ['}'] + rest;
    IndexAfterName(name, '}', rest);
    assert t[1..|name| + 1] == name;
  }

  /** A `{` that ends a brace-free text is a single brace, and the format raises. */
  lemma FormatTrailingOpen(t: string, args: map<string, string>)
    requires '{' !in t && '}' !in t
    ensures Format(t + "{", args) == Err(SingleOpen)
  {
    FormatAfterLiteral(t, "{", args);
  }

  /** A field that is never closed makes the format raise, whatever its name. */
  lemma FormatUnclosedField(name: string, args: map<string, string>)
    requires '{' !in name && '}' !in name && |name| > 0
    ensures Format("{" + name, args) == Err(UnclosedField)
  {
    var t := "{" + name;
    assert t[1..] == name;
    assert t[1] == name[0];
  }

  /** A `{` inside a field name is refused, whether or not the field is closed later. */
  lemma FormatOpenInField(name: string, rest: string, args: map<string, string>)
    requires '{' !in name && '}' !in name && |name| > 0
    ensures Format("{" + name + "{" + rest, args) == Err(OpenInField)
  {
    var t := "{" + name + "{" + rest;
    assert t[1..] == name + ['{'] + rest;
    assert t[1] == name[0];
    IndexAfterName(name, '{', rest);
    var k := IndexOf(t[1..], '}');
    assert t[1..][|name|] == '{';
    assert forall j :: 0 <= j < |name| ==> t[1..][j] == name[j];
  }
}
