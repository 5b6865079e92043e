/**
 * JavaScript values as they arrive from a JSON response body, and the few
 * built-in conversions the client code applies to them: truthiness,
 * `String(v)`, `Object.values`, `Array.prototype.join` and `String.prototype.split`.
 */
module JsValues {
  import opened Wrappers
  import Decimal

  /** A parsed JSON value; JNull is JavaScript `null`. Object keys are kept in insertion order
      and taken to be distinct. Numbers are integers. */
  datatype Json =
    | JNull
    | JBool(b: bool)
    | JNum(n: int)
    | JStr(s: string)
    | JArr(items: seq<Json>)
    | JObj(fields: seq<(string, Json)>)

  /** The result of `!!v`: false, 0, "", and null are falsy; objects and arrays are truthy. */
  predicate Truthy(v: Json) {
    match v
    case JNull => false
    case JBool(b) => b
    case JNum(n) => n != 0
    case JStr(s) => s != ""
    case JArr(_) => true
    case JObj(_) => true
  }

  /** The value of property `key` in an object's fields, None (`undefined`) when absent. */
  function Lookup(fields: seq<(string, Json)>, key: string): (r: Option<Json>)
    ensures r.None? <==> forall i :: 0 <= i < |fields| ==> fields[i].0 != key
    ensures r.Some? ==> exists i :: 0 <= i < |fields| && fields[i] == (key, r.value)
  {
    if fields == [] then None
    else if fields[0].0 == key then Some(fields[0].1)
    else Lookup(fields[1..], key)
  }

  /** `Object.values(v)`: an object's values, an array's elements, a string's characters, else nothing. */
  function ObjectValues(v: Json): (r: seq<Json>)
    ensures v.JObj? ==> |r| == |v.fields| && forall i :: 0 <= i < |r| ==> r[i] == v.fields[i].1
    ensures v.JArr? ==> r == v.items
    ensures v.JStr? ==> |r| == |v.s| && forall i :: 0 <= i < |r| ==> r[i] == JStr([v.s[i]])
    ensures (v.JNull? || v.JBool? || v.JNum?) ==> r == []
  {
    match v
    case JObj(fields) => seq(|fields|, i requires 0 <= i < |fields| => fields[i].1)
    case JArr(items) => items
    case JStr(s) => seq(|s|, i requires 0 <= i < |s| => JStr([s[i]]))
    case _ => []
  }

  /** `String(v)`: the text JavaScript converts a value to. An array becomes its elements
      joined with ",". */
  function ToJsString(v: Json): string
    decreases v, 1
  {
    match v
    case JNull => "null"
    case JBool(b) => if b then "true" else "false"
    case JNum(n) => Decimal.IntToString(n)
    case JStr(s) => s
    case JArr(items) => Join(ElementStrings(items), ",")
    case JObj(_) => "[object Object]"
  }

  /** How `join` converts one element: null becomes the empty string, anything else `String(v)`. */
  function ElementString(v: Json): (s: string)
    ensures v.JStr? ==> s == v.s
    ensures v.JNull? ==> s == ""
    ensures v.JArr? ==> s == Join(ElementStrings(v.items), ",")
    decreases v, 2
  {
    if v.JNull? then "" else ToJsString(v)
  }

  function ElementStrings(items: seq<Json>): (r: seq<string>)
    ensures |r| == |items|
    decreases JArr(items), 0
  {
    seq(|items|, i requires 0 <= i < |items| => ElementString(items[i]))
  }

  /** `xs.join(sep)`: the strings with `sep` between consecutive ones; "" for no strings. */
  function Join(xs: seq<string>, sep: string): string {
    if |xs| == 0 then ""
    else if |xs| == 1 then xs[0]
    else xs[0] + sep + Join(xs[1..], sep)
  }

  /** `s.split(sep)` for a one-character separator: the pieces between separators, at least
      one. Read from the front, a separator starts a new piece and any other character joins
      the current one. */
  function Split(s: string, sep: char): (parts: seq<string>)
    ensures |parts| > 0
  {
    if s == [] then [""]
    else
      var rest := Split(s[1..], sep);
      if s[0] == sep then [""] + rest
      else [[s[0]] + rest[0]] + rest[1..]
  }

  /** Joining a string in front of a non-empty list puts one separator between them. */
  lemma JoinCons(head: string, tail: seq<string>, sep: string)
    requires |tail| > 0
    ensures Join([head] + tail, sep) == head + sep + Join(tail, sep)
  {
    assert ([head] + tail)[1..] == tail;
  }

  /** The pieces of several splits, one after another. */
  function Flatten(xss: seq<seq<string>>): (r: seq<string>)
    ensures xss == [] ==> r == []
  {
    if xss == [] then [] else xss[0] + Flatten(xss[1..])
  }

  /** Each string split on its own. */
  function SplitEach(xs: seq<string>, sep: char): (r: seq<seq<string>>)
    ensures |r| == |xs| && forall k :: 0 <= k < |xs| ==> r[k] == Split(xs[k], sep)
  {
    seq(|xs|, k requires 0 <= k < |xs| => Split(xs[k], sep))
  }

  /** How a leading character extends a split: a separator starts a new first piece, any
      other character goes in front of the first piece. */
  function ConsPiece(c: char, parts: seq<string>, sep: char): (r: seq<string>)
    requires |parts| > 0
    ensures |r| > 0
  {
    if c == sep then [""] + parts else [[c] + parts[0]] + parts[1..]
  }

  lemma SplitCons(c: char, s: string, sep: char)
    ensures Split([c] + s, sep) == ConsPiece(c, Split(s, sep), sep)
  {
    assert ([c] + s)[1..] == s;
  }

  /** A leading character extends a split the same way whatever follows it. */
  lemma ConsPieceAppend(c: char, xs: seq<string>, ys: seq<string>, sep: char)
    requires |xs| > 0
    ensures ConsPiece(c, xs + ys, sep) == ConsPiece(c, xs, sep) + ys
  {
    if c != sep {
      assert (xs + ys)[0] == xs[0];
      assert (xs + ys)[1..] == xs[1..] + ys;
    }
  }

  /** A leading separator adds an empty first piece, so the join gains that separator in front. */
  lemma JoinConsSeparator(parts: seq<string>, sep: char)
    requires |parts| > 0
    ensures Join(ConsPiece(sep, parts, sep), [sep]) == [sep] + Join(parts, [sep])
  {
    JoinCons("", parts, [sep]);
    assert "" + [sep] + Join(parts, [sep]) == [sep] + Join(parts, [sep]);
  }

  /** A leading ordinary character in front of a single piece. */
  lemma JoinConsSingle(c: char, parts: seq<string>, sep: char)
    requires |parts| == 1 && c != sep
    ensures Join(ConsPiece(c, parts, sep), [sep]) == [c] + Join(parts, [sep])
  {
    assert ConsPiece(c, parts, sep) == [[c] + parts[0]];
  }

  /** A leading ordinary character in front of several pieces goes in front of the first. */
  lemma JoinConsMany(c: char, parts: seq<string>, sep: char)
    requires |parts| > 1 && c != sep
    ensures Join(ConsPiece(c, parts, sep), [sep]) == [c] + Join(parts, [sep])
  {
    var first, rest := parts[0], parts[1..];
    assert parts == [first] + rest;
    assert ConsPiece(c, parts, sep) == [[c] + first] + rest;
    JoinCons(first, rest, [sep]);
    JoinCons([c] + first, rest, [sep]);
  }

  /** Joining the pieces a leading character extends puts that character in front of the join. */
  lemma JoinConsPiece(c: char, parts: seq<string>, sep: char)
    requires |parts| > 0
    ensures Join(ConsPiece(c, parts, sep), [sep]) == [c] + Join(parts, [sep])
  {
    if c == sep {
      JoinConsSeparator(parts, sep);
    } else if |parts| == 1 {
      JoinConsSingle(c, parts, sep);
    } else {
      JoinConsMany(c, parts, sep);
    }
  }

  /** Joining the pieces of a split with the separator rebuilds the string. */
  lemma {:induction false} JoinSplit(s: string, sep: char)
    ensures Join(Split(s, sep), [sep]) == s
  {
    if s != [] {
      var c, tail := s[0], s[1..];
      assert s == [c] + tail;
      calc {
        Join(Split([c] + tail, sep), [sep]);
        { SplitCons(c, tail, sep); }
        Join(ConsPiece(c, Split(tail, sep), sep), [sep]);
        { JoinConsPiece(c, Split(tail, sep), sep); }
        [c] + Join(Split(tail, sep), [sep]);
        { JoinSplit(tail, sep); }
        [c] + tail;
      }
    }
  }

  /** Splitting at a separator placed between two strings splits each of them apart. */
  lemma {:induction false} SplitAppend(a: string, b: string, sep: char)
    ensures Split(a + [sep] + b, sep) == Split(a, sep) + Split(b, sep)
  {
    if a == [] {
      SplitCons(sep, b, sep);
      assert a + [sep] + b == [sep] + b;
    } else {
      var c, tail := a[0], a[1..];
      assert a == [c] + tail;
      assert a + [sep] + b == [c] + (tail + [sep] + b);
      calc {
        Split([c] + (tail + [sep] + b), sep);
        { SplitCons(c, tail + [sep] + b, sep); }
        ConsPiece(c, Split(tail + [sep] + b, sep), sep);
        { SplitAppend(tail, b, sep); }
        ConsPiece(c, Split(tail, sep) + Split(b, sep), sep);
        { ConsPieceAppend(c, Split(tail, sep), Split(b, sep), sep); }
        ConsPiece(c, Split(tail, sep), sep) + Split(b, sep);
        { SplitCons(c, tail, sep); }
        Split([c] + tail, sep) + Split(b, sep);
      }
    }
  }

  /** Splitting a join gives the pieces of each joined string, in order: a string holding
      the separator contributes several pieces. */
  lemma {:induction false} SplitOfJoin(xs: seq<string>, sep: char)
    requires |xs| > 0
    ensures Split(Join(xs, [sep]), sep) == Flatten(SplitEach(xs, sep))
  {
    var each := SplitEach(xs, sep);
    if |xs| == 1 {
      assert each[1..] == [];
    } else {
      assert Join(xs, [sep]) == xs[0] + [sep] + Join(xs[1..], [sep]);
      SplitAppend(xs[0], Join(xs[1..], [sep]), sep);
      SplitOfJoin(xs[1..], sep);
      assert each[1..] == SplitEach(xs[1..], sep);
    }
  }

  /** A string without the separator is a single piece. */
  lemma {:induction false} SplitWithoutSeparator(s: string, sep: char)
    requires sep !in s
    ensures Split(s, sep) == [s]
  {
    if s != [] {
      assert sep !in s[1..];
      SplitWithoutSeparator(s[1..], sep);
      assert s == [s[0]] + s[1..];
    }
  }

  /** Each piece of a split of separator-free strings is a single piece. */
  lemma {:induction false} FlattenSingles(xs: seq<string>, sep: char)
    requires forall k :: 0 <= k < |xs| ==> sep !in xs[k]
    ensures Flatten(SplitEach(xs, sep)) == xs
  {
    if xs != [] {
      SplitWithoutSeparator(xs[0], sep);
      FlattenSingles(xs[1..], sep);
      assert SplitEach(xs, sep)[1..] == SplitEach(xs[1..], sep);
      assert xs == [xs[0]] + xs[1..];
    }
  }

  /** Splitting a join of separator-free strings gives the strings back. */
  lemma SplitJoin(xs: seq<string>, sep: char)
    requires |xs| > 0
    requires forall k :: 0 <= k < |xs| ==> sep !in xs[k]
    ensures Split(Join(xs, [sep]), sep) == xs
  {
    SplitOfJoin(xs, sep);
    FlattenSingles(xs, sep);
  }
}
