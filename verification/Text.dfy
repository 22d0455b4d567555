/** String operations the platform code relies on: prefix and suffix tests,
    splitting on a separator character and joining again. */
module Text {

  predicate StartsWith(s: string, prefix: string) {
    prefix <= s
  }

  predicate EndsWith(s: string, suffix: string) {
    |suffix| <= |s| && s[|s| - |suffix|..] == suffix
  }

  function Split(s: string, sep: char): (parts: seq<string>)
    ensures |parts| >= 1
    ensures forall p | p in parts :: sep !in p
  {
    if s == "" then [""]
    else
      var rest := Split(s[1..], sep);
      if s[0] == sep then [""] + rest else [[s[0]] + rest[0]] + rest[1..]
  }

  function Join(parts: seq<string>, sep: char): string {
    if |parts| == 0 then ""
    else if |parts| == 1 then parts[0]
    else parts[0] + [sep] + Join(parts[1..], sep)
  }

  lemma {:induction false} JoinSplit(s: string, sep: char)
    ensures Join(Split(s, sep), sep) == s
  {
    if s != "" {
      var rest := Split(s[1..], sep);
      JoinSplit(s[1..], sep);
      if s[0] == sep {
        assert ([""] + rest)[1..] == rest;
        assert Join([""] + rest, sep) == [sep] + Join(rest, sep);
      } else {
        var parts := [[s[0]] + rest[0]] + rest[1..];
        assert parts[1..] == rest[1..];
        assert Join(parts, sep) == [s[0]] + Join(rest, sep);
      }
      assert s == [s[0]] + s[1..];
    }
  }

  lemma {:induction false} SplitJoin(parts: seq<string>, sep: char)
    requires |parts| >= 1 && forall p | p in parts :: sep !in p
    ensures Split(Join(parts, sep), sep) == parts
    decreases |parts|, |parts[0]|
  {
    var s := Join(parts, sep);
    if parts[0] == "" {
      if |parts| > 1 {
        SplitJoin(parts[1..], sep);
        assert s == [sep] + Join(parts[1..], sep);
        assert s[1..] == Join(parts[1..], sep);
      }
    } else {
      var parts' := [parts[0][1..]] + parts[1..];
      assert parts'[1..] == parts[1..];
      assert s == [parts[0][0]] + Join(parts', sep);
      assert s[1..] == Join(parts', sep);
      assert parts[0] in parts && sep !in parts[0];
      SplitJoin(parts', sep);
      assert parts[0] == [parts[0][0]] + parts'[0];
    }
  }

  /** Appending different suffixes of different last characters never gives the same name. */
  lemma SuffixesDiffer(a: string, b: string, x: string, y: string)
    requires |x| > 0 && |y| > 0 && x[|x| - 1] != y[|y| - 1]
    ensures a + x != b + y
  {
    assert (a + x)[|a + x| - 1] == x[|x| - 1];
    assert (b + y)[|b + y| - 1] == y[|y| - 1];
  }

  /** What precedes the first separator determines the split. */
  lemma FirstSeparator(a: string, b: string, x: string, y: string, sep: char)
    requires sep !in a && sep !in b && a + [sep] + x == b + [sep] + y
    ensures a == b && x == y
  {
    var s := a + [sep] + x;
    forall i | 0 <= i < |a| ensures s[i] != sep { assert s[i] == a[i] && a[i] in a; }
    forall i | 0 <= i < |b| ensures s[i] != sep { assert s[i] == (b + [sep] + y)[i] == b[i] && b[i] in b; }
    assert s[|a|] == sep && s[|b|] == (b + [sep] + y)[|b|] == sep;
    assert a == s[..|a|] && b == s[..|b|] && x == s[|a| + 1..] && y == s[|b| + 1..];
  }

  /** White space, over ASCII. */
  predicate IsSpace(c: char) {
    c == ' ' || '\t' <= c <= '\r' || '\U{1c}' <= c <= '\U{1f}'
  }

  lemma SpacesAre(c: char)
    ensures IsSpace(c) <==>
              c in {' ', '\t', '\n', '\r', '\U{0b}', '\U{0c}', '\U{1c}', '\U{1d}', '\U{1e}', '\U{1f}'}
  {
  }

  function StripLeft(s: string, drop: char -> bool): string {
    if s != "" && drop(s[0]) then StripLeft(s[1..], drop) else s
  }

  function StripRight(s: string, drop: char -> bool): string {
    if s != "" && drop(s[|s| - 1]) then StripRight(s[..|s| - 1], drop) else s
  }

  function Strip(s: string, drop: char -> bool): string {
    StripRight(StripLeft(s, drop), drop)
  }

  lemma {:induction false} StripLeftKeeps(s: string, drop: char -> bool)
    ensures var r := StripLeft(s, drop);
            && (r != "" ==> !drop(r[0]))
            && (forall c | c in r :: c in s)
            && (forall c | c in s && !drop(c) :: c in r)
  {
    if s != "" && drop(s[0]) {
      StripLeftKeeps(s[1..], drop);
      assert forall c :: c in s <==> c == s[0] || c in s[1..];
    }
  }

  lemma {:induction false} StripRightKeeps(s: string, drop: char -> bool)
    ensures var r := StripRight(s, drop);
            && r <= s
            && (r != "" ==> !drop(r[|r| - 1]))
            && (forall c | c in s && !drop(c) :: c in r)
  {
    if s != "" && drop(s[|s| - 1]) {
      StripRightKeeps(s[..|s| - 1], drop);
      assert forall c :: c in s <==> c == s[|s| - 1] || c in s[..|s| - 1];
    }
  }

  /** What is left lies between two kept characters and lacks only dropped ones. */
  lemma StripKeeps(s: string, drop: char -> bool)
    ensures var r := Strip(s, drop);
            && (r != "" ==> !drop(r[0]) && !drop(r[|r| - 1]))
            && (forall c | c in r :: c in s)
            && (forall c | c in s && !drop(c) :: c in r)
  {
    StripLeftKeeps(s, drop);
    StripRightKeeps(StripLeft(s, drop), drop);
  }

  /** `core` with nothing but dropped characters around it. */
  ghost predicate Padded(s: string, core: string, drop: char -> bool) {
    exists a, b :: AllOf(a, drop) && AllOf(b, drop) && s == a + core + b
  }

  predicate AllOf(s: string, keep: char -> bool) {
    forall i | 0 <= i < |s| :: keep(s[i])
  }

  lemma {:induction false} StripLeftSplits(s: string, drop: char -> bool)
    ensures exists a :: AllOf(a, drop) && s == a + StripLeft(s, drop)
  {
    if s != "" && drop(s[0]) {
      StripLeftSplits(s[1..], drop);
      var a :| AllOf(a, drop) && s[1..] == a + StripLeft(s[1..], drop);
      assert AllOf([s[0]] + a, drop) && s == [s[0]] + a + StripLeft(s, drop);
    } else {
      assert AllOf("", drop) && s == "" + s;
    }
  }

  lemma {:induction false} StripRightSplits(s: string, drop: char -> bool)
    ensures exists b :: AllOf(b, drop) && s == StripRight(s, drop) + b
  {
    if s != "" && drop(s[|s| - 1]) {
      var front := s[..|s| - 1];
      StripRightSplits(front, drop);
      var b :| AllOf(b, drop) && front == StripRight(front, drop) + b;
      assert AllOf(b + [s[|s| - 1]], drop) && s == StripRight(s, drop) + (b + [s[|s| - 1]]);
    } else {
      assert AllOf("", drop) && s == s + "";
    }
  }

  lemma {:induction false} StripLeftPad(a: string, s: string, drop: char -> bool)
    requires AllOf(a, drop)
    ensures StripLeft(a + s, drop) == StripLeft(s, drop)
  {
    if a != "" {
      assert (a + s)[1..] == a[1..] + s;
      StripLeftPad(a[1..], s, drop);
    } else {
      assert a + s == s;
    }
  }

  lemma {:induction false} StripRightPad(s: string, b: string, drop: char -> bool)
    requires AllOf(b, drop)
    ensures StripRight(s + b, drop) == StripRight(s, drop)
  {
    if b != "" {
      assert (s + b)[..|s + b| - 1] == s + b[..|b| - 1];
      StripRightPad(s, b[..|b| - 1], drop);
    } else {
      assert s + b == s;
    }
  }

  lemma StripPads(s: string, drop: char -> bool)
    ensures Padded(s, Strip(s, drop), drop)
  {
    StripLeftSplits(s, drop);
    StripRightSplits(StripLeft(s, drop), drop);
    var core := Strip(s, drop);
    var a :| AllOf(a, drop) && s == a + StripLeft(s, drop);
    var b :| AllOf(b, drop) && StripLeft(s, drop) == core + b;
    assert s == a + core + b;
  }

  lemma PaddedStrips(s: string, core: string, drop: char -> bool)
    requires core != "" && Padded(s, core, drop) && !drop(core[0]) && !drop(core[|core| - 1])
    ensures Strip(s, drop) == core
  {
    var a, b :| AllOf(a, drop) && AllOf(b, drop) && s == a + core + b;
    assert a + core + b == a + (core + b);
    assert (core + b)[0] == core[0];
    StripLeftPad(a, core + b, drop);
    StripRightPad(core, b, drop);
  }

  /** Stripping finds the core between the padding: the one that starts and ends with a kept character. */
  lemma StripIff(s: string, core: string, drop: char -> bool)
    requires core != ""
    ensures Strip(s, drop) == core <==> Padded(s, core, drop) && !drop(core[0]) && !drop(core[|core| - 1])
  {
    hide Padded;
    StripPads(s, drop);
    if Strip(s, drop) == core {
      StripKeeps(s, drop);
    }
    if Padded(s, core, drop) && !drop(core[0]) && !drop(core[|core| - 1]) {
      PaddedStrips(s, core, drop);
    }
  }

  lemma StripNothing(s: string, drop: char -> bool)
    requires s != "" ==> !drop(s[0]) && !drop(s[|s| - 1])
    ensures Strip(s, drop) == s
  {
  }

  function LowerChar(c: char): char {
    if 'A' <= c <= 'Z' then c - 'A' + 'a' else c
  }

  function Lower(s: string): string {
    seq(|s|, i requires 0 <= i < |s| => LowerChar(s[i]))
  }

  function Substitute(s: string, from: char, to: char): (r: string)
    ensures |r| == |s|
    ensures forall i | 0 <= i < |s| :: r[i] == if s[i] == from then to else s[i]
  {
    seq(|s|, i requires 0 <= i < |s| => if s[i] == from then to else s[i])
  }
}
