/** A value that may be absent. */
module Wrappers {
  datatype Option<+T> = None | Some(value: T)
}

/**
 The small slice of JavaScript value semantics that the request-authorisation
 path of the server depends on: the primitive values that reach it (from a
 JSON body, a query string, a header or a token claim), truthiness as tested
 by `if (x)` / `!x`, and `String.prototype.split(" ")` together with its
 inverse `Array.prototype.join(" ")`.
 */
module Js {

  /** Primitive JavaScript values. Strict equality `===` on these is
      structural equality (`NaN` is not modelled: numbers are integers). */
  datatype Value = Undefined | Null | Bool(b: bool) | Num(n: int) | Str(s: string)

  /** JavaScript truthiness: `undefined`, `null`, `false`, `0` and `""` are falsy. */
  predicate Truthy(v: Value)
  {
    match v
    case Undefined => false
    case Null => false
    case Bool(b) => b
    case Num(n) => n != 0
    case Str(s) => s != []
  }

  /** `s.indexOf(c)`: the position of the first occurrence of `c`, or -1. */
  function IndexOf(s: string, c: char): (r: int)
    ensures -1 <= r < |s|
    ensures r < 0 <==> c !in s
    ensures 0 <= r ==> s[r] == c && c !in s[..r]
  {
    if |s| == 0 then -1
    else if s[0] == c then 0
    else
      var k := IndexOf(s[1..], c);
      if k < 0 then -1
      else
        assert s[..k + 1] == [s[0]] + s[1..][..k];
        k + 1
  }

  /** `fields.join(" ")`. */
  function Join(fields: seq<string>): string
  {
    if |fields| == 0 then []
    else if |fields| == 1 then fields[0]
    else fields[0] + " " + Join(fields[1..])
  }

  /** No field contains the separator. */
  ghost predicate SpaceFree(fields: seq<string>)
  {
    forall i :: 0 <= i < |fields| ==> ' ' !in fields[i]
  }

  /** `s.split(" ")`: the pieces of `s` between single spaces, empty pieces
      included, so there is always at least one field, and more than one
      exactly when `s` contains a space. */
  function Split(s: string): (fields: seq<string>)
    ensures |fields| >= 1
    ensures SpaceFree(fields)
    ensures |fields| == 1 <==> ' ' !in s
    decreases |s|
  {
    var i := IndexOf(s, ' ');
    if i < 0 then [s]
    else
      var rest := Split(s[i + 1..]);
      assert forall j :: 1 <= j < |rest| + 1 ==> ([s[..i]] + rest)[j] == rest[j - 1];
      [s[..i]] + rest
  }

  /** Joining the fields of a split string gives the string back. */
  lemma {:induction false} JoinSplit(s: string)
    ensures Join(Split(s)) == s
    decreases |s|
  {
    var i := IndexOf(s, ' ');
    if i >= 0 {
      var rest := s[i + 1..];
      JoinSplit(rest);
      JoinCons(s[..i], Split(rest));
      SpaceAt(s, i);
    }
  }

  /** Joining a field in front of a non-empty list puts a space between them. */
  lemma JoinCons(x: string, fields: seq<string>)
    requires |fields| >= 1
    ensures Join([x] + fields) == x + " " + Join(fields)
  {
    assert ([x] + fields)[1..] == fields;
  }

  /** A string is the text before a space, the space, and the text after it. */
  lemma SpaceAt(s: string, i: nat)
    requires i < |s| && s[i] == ' '
    ensures s == s[..i] + " " + s[i + 1..]
  {
  }

  /** `fields[i]` on a JavaScript array: `undefined` past the end. */
  function Field(fields: seq<string>, i: nat): Value
  {
    if i < |fields| then Str(fields[i]) else Undefined
  }

  /** Splitting a joined list of space-free fields gives the fields back. */
  lemma {:induction false} SplitJoin(fields: seq<string>)
    requires |fields| >= 1
    requires SpaceFree(fields)
    ensures Split(Join(fields)) == fields
  {
    if |fields| > 1 {
      var tail := Join(fields[1..]);
      assert Join(fields) == fields[0] + " " + tail;
      SplitCons(fields[0], tail);
      SplitJoin(fields[1..]);
      assert fields == [fields[0]] + fields[1..];
    }
  }

  /** A space-free prefix followed by a space is split off as the first field. */
  lemma SplitCons(a: string, rest: string)
    requires ' ' !in a
    ensures Split(a + " " + rest) == [a] + Split(rest)
  {
    var s := a + " " + rest;
    IndexOfFirstSpace(a, rest);
    assert s[..|a|] == a;
    assert s[|a| + 1..] == rest;
  }

  /** The first space of `a + " " + b` is the one after `a` when `a` has none. */
  lemma IndexOfFirstSpace(a: string, b: string)
    requires ' ' !in a
    ensures IndexOf(a + " " + b, ' ') == |a|
  {
    var s := a + " " + b;
    assert s[|a|] == ' ';
    assert forall j :: 0 <= j < |a| ==> s[j] == a[j];
    assert ' ' in s[..|a| + 1] by { assert s[..|a| + 1][|a|] == ' '; }
  }

  /** `s` is `a + " " + t + b` where `a` is the text before the first space,
      `t` the text up to the next space, and `b` empty or starting at that
      next space. */
  ghost predicate SplitsAround(s: string, a: string, t: string, b: string)
  {
    && s == a + " " + t + b
    && ' ' !in a
    && ' ' !in t
    && (b == [] || b[0] == ' ')
  }

  /** `t` is the text between the first space of `s` and the next space or
      the end of `s`. */
  ghost predicate IsSecondField(s: string, t: string)
  {
    exists a, b :: SplitsAround(s, a, t, b)
  }

  /** `s.split(" ")[1]` is exactly the text between the first space and the
      next space or end of string, and is `undefined` exactly when `s` has
      no space. */
  lemma SecondFieldIsBetweenSpaces(s: string, t: string)
    ensures Field(Split(s), 1) == Str(t) <==> IsSecondField(s, t)
    ensures Field(Split(s), 1) == Undefined <==> ' ' !in s
  {
    if Field(Split(s), 1) == Str(t) {
      SecondFieldSplitsAround(s, t);
    }
    if IsSecondField(s, t) {
      var a, b :| SplitsAround(s, a, t, b);
      SplitsAroundSecondField(s, a, t, b);
    }
  }

  /** The second field of a split string sits between the first two spaces. */
  lemma SecondFieldSplitsAround(s: string, t: string)
    requires Field(Split(s), 1) == Str(t)
    ensures IsSecondField(s, t)
  {
    JoinSplit(s);
    JoinedSecondField(Split(s));
  }

  /** In a joined list of space-free fields, the second field sits between
      the first two spaces. */
  lemma JoinedSecondField(fields: seq<string>)
    requires |fields| >= 2
    requires SpaceFree(fields)
    ensures IsSecondField(Join(fields), fields[1])
  {
    var a, t, rest := fields[0], fields[1], fields[1..];
    var b := JoinAfterFirst(rest);
    assert ' ' !in a && ' ' !in t;
    ConcatAssoc(a, t, b);
    assert SplitsAround(Join(fields), a, t, b);
  }

  /** What `Join` puts after the first field: nothing, or a space and the rest. */
  ghost function JoinAfterFirst(fields: seq<string>): (b: string)
    requires |fields| >= 1
    ensures Join(fields) == fields[0] + b
    ensures b == [] || b[0] == ' '
  {
    if |fields| == 1 then [] else " " + Join(fields[1..])
  }

  lemma ConcatAssoc(a: string, t: string, b: string)
    ensures a + " " + (t + b) == a + " " + t + b
  {
  }

  /** Text between the first two spaces is what `split` puts second. */
  lemma SplitsAroundSecondField(s: string, a: string, t: string, b: string)
    requires SplitsAround(s, a, t, b)
    ensures Field(Split(s), 1) == Str(t)
  {
    ConcatAssoc(a, t, b);
    SplitCons(a, t + b);
    FirstField(t, b);
  }

  /** The first field of `t + b` is `t` when `t` is space-free and `b` is
      empty or starts with a space. */
  lemma FirstField(t: string, b: string)
    requires ' ' !in t
    requires b == [] || b[0] == ' '
    ensures Split(t + b)[0] == t
  {
    if b == [] {
      assert t + b == t;
    } else {
      var c := b[1..];
      assert b == " " + c;
      assert t + b == t + " " + c;
      SplitCons(t, c);
    }
  }
}
