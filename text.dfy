/** The string operations the pages apply to timezone names, search filters and
    storage keys. `toLowerCase` is modelled on ASCII letters only, and the
    default order of `Array.prototype.sort` as lexicographic order on
    characters. */
module Text {
  import opened Sequences

  datatype Option<T> = None | Some(value: T)

  /** JavaScript truthiness of a string that may be null or undefined: only a
      present, non-empty string is truthy. */
  predicate Truthy(s: Option<string>) {
    s.Some? && s.value != ""
  }

  /** `toLowerCase` on one character, for the ASCII letters A-Z. */
  function LowerChar(c: char): char {
    if 'A' <= c <= 'Z' then (c as int + 32) as char else c
  }

  function Lower(s: string): string {
    seq(|s|, i requires 0 <= i < |s| => LowerChar(s[i]))
  }

  /** The search normalisation `s.toLowerCase().replace(/_/g, ' ')`; with
      `slashToo` it is `s.toLowerCase().replace(/[/_]/g, ' ')`. */
  function Normalize(s: string, slashToo: bool): string {
    seq(|s|, i requires 0 <= i < |s| =>
      var c := LowerChar(s[i]);
      if c == '_' || (slashToo && c == '/') then ' ' else c)
  }

  /** `s.replace(/_/g, ' ')`. */
  function SpaceUnderscores(s: string): string {
    seq(|s|, i requires 0 <= i < |s| => if s[i] == '_' then ' ' else s[i])
  }

  predicate OccursAt(s: string, sub: string, i: int) {
    0 <= i && i + |sub| <= |s| && s[i..i + |sub|] == sub
  }

  /** `s.includes(sub)`. */
  predicate Contains(s: string, sub: string) {
    exists i :: 0 <= i <= |s| && OccursAt(s, sub, i)
  }

  /** Every string includes the empty string. */
  lemma ContainsEmpty(s: string)
    ensures Contains(s, "")
  {
    assert OccursAt(s, "", 0);
  }

  /** `s.startsWith(prefix)`. */
  predicate StartsWith(s: string, prefix: string) {
    |prefix| <= |s| && s[..|prefix|] == prefix
  }

  /** Lexicographic order on characters: the order in which the default
      `sort()` puts strings. */
  predicate Leq(a: string, b: string) {
    |a| == 0 || (|b| != 0 && (a[0] < b[0] || (a[0] == b[0] && Leq(a[1..], b[1..]))))
  }

  lemma {:induction false} LeqTotal(a: string, b: string)
    ensures Leq(a, b) || Leq(b, a)
  {
    if |a| != 0 && |b| != 0 && a[0] == b[0] {
      LeqTotal(a[1..], b[1..]);
    }
  }

  lemma {:induction false} LeqTransitive(a: string, b: string, c: string)
    requires Leq(a, b) && Leq(b, c)
    ensures Leq(a, c)
  {
    if |a| != 0 && a[0] == b[0] && b[0] == c[0] {
      LeqTransitive(a[1..], b[1..], c[1..]);
    }
  }

  const CodeUnitOrder: (string, string) -> bool := (a, b) => Leq(a, b)

  lemma CodeUnitOrderIsTotalPreorder()
    ensures TotalPreorder(CodeUnitOrder)
  {
    forall a, b ensures CodeUnitOrder(a, b) || CodeUnitOrder(b, a) {
      LeqTotal(a, b);
    }
    forall a, b, c | CodeUnitOrder(a, b) && CodeUnitOrder(b, c)
      ensures CodeUnitOrder(a, c)
    {
      LeqTransitive(a, b, c);
    }
  }
}

/** `split` and `join` on a one-character separator, as the timezone list uses
    them on `Region/City` names. */
module Segments {
  import opened Sequences

  /** `s.split(sep)` for a one-character separator: the text before the
      first `sep`, then the parts of the text after it; always at least one
      part. */
  function Split(s: string, sep: char): (parts: seq<string>)
    ensures |parts| >= 1
    decreases |s|
  {
    var i := IndexOf(s, sep);
    if i == -1 then [s] else [s[..i]] + Split(s[i + 1..], sep)
  }

  /** `parts.join(sep)`. */
  function Join(parts: seq<string>, sep: char): string {
    if parts == [] then ""
    else if |parts| == 1 then parts[0]
    else parts[0] + [sep] + Join(parts[1..], sep)
  }

  /** Joining the parts of a split gives the string back. */
  lemma {:induction false} JoinSplit(s: string, sep: char)
    ensures Join(Split(s, sep), sep) == s
    decreases |s|
  {
    var i := IndexOf(s, sep);
    if i == -1 {
      assert Split(s, sep) == [s];
    } else {
      var tail := s[i + 1..];
      JoinSplit(tail, sep);
      SplitAtFirst(s, sep, i);
      JoinSplitStep(s, sep, i, Split(tail, sep));
    }
  }

  /** One step of JoinSplit: the first part, the separator, then the rest. */
  lemma {:induction false} JoinSplitStep(s: string, sep: char, i: int, rest: seq<string>)
    requires 0 <= i < |s| && s[i] == sep
    requires |rest| >= 1 && Join(rest, sep) == s[i + 1..]
    ensures Join([s[..i]] + rest, sep) == s
  {
    JoinCons(s[..i], rest, sep);
    assert s == s[..i] + [sep] + s[i + 1..];
  }

  /** Splitting at the first separator. */
  lemma {:induction false} SplitAtFirst(s: string, sep: char, i: int)
    requires i == IndexOf(s, sep) && i != -1
    ensures Split(s, sep) == [s[..i]] + Split(s[i + 1..], sep)
  {
  }

  lemma {:induction false} JoinCons(part: string, rest: seq<string>, sep: char)
    requires |rest| >= 1
    ensures Join([part] + rest, sep) == part + [sep] + Join(rest, sep)
  {
    assert ([part] + rest)[1..] == rest;
  }
}
