/**
 The few Python string operations the camera integration relies on:
 `str.strip()`, `str.lower()`, `'=' in s` with `s.split('=', 1)`, and
 `str.format` with one positional argument. Strings are `seq<char>`.
 */
module Text {

  datatype Option<+T> = None | Some(value: T)

  /** Python's `str.isspace` for one character: the characters `str.strip()` removes. */
  predicate IsSpace(c: char)
  {
    || c == ' '
    || '\t' <= c <= '\r'                 // \t \n \x0b \x0c \r
    || '\U{1C}' <= c <= '\U{1F}'         // file, group, record and unit separators
    || c == '\U{85}' || c == '\U{A0}' || c == '\U{1680}'
    || '\U{2000}' <= c <= '\U{200A}'
    || c == '\U{2028}' || c == '\U{2029}' || c == '\U{202F}' || c == '\U{205F}' || c == '\U{3000}'
  }

  /** Length of the longest all-whitespace prefix of `s`. */
  function LeadingSpace(s: string): (n: nat)
    ensures n <= |s|
    ensures forall k :: 0 <= k < n ==> IsSpace(s[k])
    ensures n < |s| ==> !IsSpace(s[n])
  {
    if s == [] || !IsSpace(s[0]) then 0 else 1 + LeadingSpace(s[1..])
  }

  /** Length of the longest all-whitespace suffix of `s`. */
  function TrailingSpace(s: string): (n: nat)
    ensures n <= |s|
    ensures forall k :: |s| - n <= k < |s| ==> IsSpace(s[k])
    ensures n < |s| ==> !IsSpace(s[|s| - 1 - n])
  {
    if s == [] || !IsSpace(s[|s| - 1]) then 0 else 1 + TrailingSpace(s[..|s| - 1])
  }

  /**
   `s.strip()`: the slice of `s` left once every leading and every trailing
   whitespace character is removed. The result is a slice between two
   all-whitespace ends, it neither starts nor ends with whitespace, and it is
   empty only when `s` is all whitespace.
   */
  function Strip(s: string): (r: string)
    ensures exists i, j :: 0 <= i <= j <= |s| && r == s[i..j]
                           && (forall k :: 0 <= k < i ==> IsSpace(s[k]))
                           && (forall k :: j <= k < |s| ==> IsSpace(s[k]))
    ensures r != [] ==> !IsSpace(r[0]) && !IsSpace(r[|r| - 1])
    ensures r == [] ==> forall k :: 0 <= k < |s| ==> IsSpace(s[k])
  {
    var i := LeadingSpace(s);
    var j := |s| - TrailingSpace(s[i..]);
    assert s[i..][..j - i] == s[i..j];
    s[i..j]
  }

  /** `str.lower()` on one character (ASCII letters only, see README). */
  function LowerChar(c: char): (d: char)
    ensures 'A' <= c <= 'Z' ==> 'a' <= d <= 'z' && d as int == c as int - 'A' as int + 'a' as int
    ensures !('A' <= c <= 'Z') ==> d == c
  {
    if 'A' <= c <= 'Z' then (c as int - 'A' as int + 'a' as int) as char else c
  }

  function Lower(s: string): (r: string)
    ensures |r| == |s|
    ensures forall i :: 0 <= i < |s| ==> r[i] == LowerChar(s[i])
  {
    if s == [] then [] else [LowerChar(s[0])] + Lower(s[1..])
  }

  /** Lower-casing leaves the separator where it was: it creates and removes no `=`. */
  lemma {:induction false} LowerKeepsEquals(s: string)
    ensures ('=' in Lower(s)) <==> ('=' in s)
  {
    if s != [] {
      LowerKeepsEquals(s[1..]);
      assert Lower(s) == [LowerChar(s[0])] + Lower(s[1..]);
      assert s == [s[0]] + s[1..];
    }
  }

  /** Position of the first occurrence of `c` in `s`. */
  function FirstIndex(s: string, c: char): (i: nat)
    requires c in s
    ensures i < |s| && s[i] == c
    ensures c !in s[..i]
  {
    if s[0] == c then 0
    else
      var j := FirstIndex(s[1..], c);
      assert s[..j + 1] == [s[0]] + s[1..][..j];
      j + 1
  }

  /** The only position holding `c` with no `c` before it is the first index of `c`. */
  lemma {:induction false} FirstIndexAt(s: string, c: char, n: nat)
    requires n < |s| && s[n] == c && c !in s[..n]
    ensures FirstIndex(s, c) == n
  {
    if n > 0 {
      assert s[0] == s[..n][0];
      assert s[1..][..n - 1] == s[..n][1..];
      FirstIndexAt(s[1..], c, n - 1);
    }
  }

  /**
   `s.split('=', 1)` on a string that contains `=`: the text before the first
   `=` and everything after it, further `=` characters included. Glued back
   together with one `=` the two parts give `s` again, and the first part holds
   no `=`.
   */
  function SplitFirst(s: string): (kv: (string, string))
    requires '=' in s
    ensures kv.0 + "=" + kv.1 == s
    ensures '=' !in kv.0
  {
    var i := FirstIndex(s, '=');
    assert s[..i] + "=" + s[i + 1..] == s[..i] + s[i..];
    (s[..i], s[i + 1..])
  }

  /** The converse round trip: a key without `=`, then `=`, then any value, splits back into that key and value. */
  lemma SplitFirstJoin(k: string, v: string)
    requires '=' !in k
    ensures '=' in k + "=" + v
    ensures SplitFirst(k + "=" + v) == (k, v)
  {
    var s := k + "=" + v;
    assert s[|k|] == '=';
    assert s[..|k|] == k;
    FirstIndexAt(s, '=', |k|);
    assert s[|k| + 1..] == v;
  }

  /**
   `template.format(arg)` for the templates this integration uses: each `{}`
   is replaced by `arg`, `{{` and `}}` stand for a literal brace. `None`
   stands for the exception Python raises: a second `{}` has no argument to
   take (IndexError), and a lone brace is malformed (ValueError). Named and
   numbered fields are outside the model (see README).
   */
  function Format(template: string, arg: string): Option<string>
  {
    FormatFrom(template, arg, false)
  }

  function Prepend(p: string, o: Option<string>): (r: Option<string>)
    ensures r.Some? <==> o.Some?
    ensures r.Some? ==> r.value == p + o.value
  {
    match o
    case None => None
    case Some(s) => Some(p + s)
  }

  /** `used` records that the one positional argument has been consumed. */
  function FormatFrom(t: string, arg: string, used: bool): Option<string>
    decreases |t|
  {
    if t == [] then Some([])
    else if t[0] == '{' then
      if |t| >= 2 && t[1] == '{' then Prepend("{", FormatFrom(t[2..], arg, used))
      else if |t| >= 2 && t[1] == '}' then
        if used then None else Prepend(arg, FormatFrom(t[2..], arg, true))
      else None
    else if t[0] == '}' then
      if |t| >= 2 && t[1] == '}' then Prepend("}", FormatFrom(t[2..], arg, used))
      else None
    else Prepend([t[0]], FormatFrom(t[1..], arg, used))
  }

  predicate NoBraces(s: string)
  {
    '{' !in s && '}' !in s
  }

  /** Text without braces is copied verbatim, whether or not the argument was used. */
  lemma {:induction false} FormatPlain(p: string, arg: string, used: bool)
    requires NoBraces(p)
    ensures FormatFrom(p, arg, used) == Some(p)
  {
    if p != [] {
      FormatPlain(p[1..], arg, used);
      assert [p[0]] + p[1..] == p;
    }
  }

  /** A template with one `{}` field and no other brace formats to the argument put in place of the field. */
  lemma {:induction false} FormatField(before: string, after: string, arg: string)
    requires NoBraces(before) && NoBraces(after)
    ensures Format(before + "{}" + after, arg) == Some(before + arg + after)
  {
    FieldFrom(before, after, arg);
  }

  lemma FieldHere(after: string, arg: string)
    requires NoBraces(after)
    ensures FormatFrom("{}" + after, arg, false) == Some(arg + after)
  {
    var t := "{}" + after;
    assert t[0] == '{' && t[1] == '}' && t[2..] == after;
    FormatPlain(after, arg, true);
  }

  lemma NoBracesTail(s: string)
    requires s != [] && NoBraces(s)
    ensures NoBraces(s[1..]) && s[0] != '{' && s[0] != '}'
  {
    assert s == [s[0]] + s[1..];
  }

  lemma {:induction false} FieldFrom(before: string, after: string, arg: string)
    requires NoBraces(before) && NoBraces(after)
    ensures FormatFrom(before + "{}" + after, arg, false) == Some(before + arg + after)
  {
    if before == [] {
      assert before + "{}" + after == "{}" + after;
      FieldHere(after, arg);
      assert before + arg + after == arg + after;
    } else {
      var t := before + "{}" + after;
      NoBracesTail(before);
      assert t[0] == before[0];
      assert t[1..] == before[1..] + "{}" + after;
      FieldFrom(before[1..], after, arg);
      assert FormatFrom(t, arg, false) == Prepend([before[0]], FormatFrom(t[1..], arg, false));
      assert [before[0]] + (before[1..] + arg + after) == before + arg + after;
    }
  }

  /** A template with two `{}` fields and only one argument is an error. */
  lemma FormatSecondField(path: string, arg: string)
    requires NoBraces(path)
    ensures Format("{}" + path + "{}", arg) == None
  {
    var t := "{}" + path + "{}";
    assert t[2..] == path + "{}";
    SecondFieldFails(path, arg);
  }

  lemma {:induction false} SecondFieldFails(p: string, arg: string)
    requires NoBraces(p)
    ensures FormatFrom(p + "{}", arg, true) == None
  {
    if p == [] {
      assert p + "{}" == "{}";
    } else {
      assert (p + "{}")[1..] == p[1..] + "{}";
      SecondFieldFails(p[1..], arg);
    }
  }
}
