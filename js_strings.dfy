/**
 * JavaScript's `String.prototype.split` with a one-character separator and
 * `Array.prototype.join` over strings, with their edge cases: splitting the empty
 * string gives one empty part, adjacent separators give empty parts, and joining
 * the empty array gives the empty string.
 */
module JsStrings {

  /** `s.split(sep)` for a separator of one character. */
  function Split(s: string, sep: char): (parts: seq<string>)
    ensures |parts| >= 1
    decreases |s|
  {
    if s == [] then [""]
    else
      var rest := Split(s[1..], sep);
      if s[0] == sep then [""] + rest
      else [[s[0]] + rest[0]] + rest[1..]
  }

  /** No part contains the separator. */
  lemma {:induction false} SplitPartsExcludeSeparator(s: string, sep: char)
    ensures forall i :: 0 <= i < |Split(s, sep)| ==> sep !in Split(s, sep)[i]
    decreases |s|
  {
    if s != [] {
      SplitPartsExcludeSeparator(s[1..], sep);
      SplitCons(s[0], s[1..], sep);
      assert s == [s[0]] + s[1..];
    }
  }

  /** There is one more part than there are separators. */
  lemma {:induction false} SplitPartCount(s: string, sep: char)
    ensures |Split(s, sep)| == multiset(s)[sep] + 1
    decreases |s|
  {
    if s != [] {
      SplitPartCount(s[1..], sep);
      assert s == [s[0]] + s[1..];
    }
  }

  /** One step of `Split`, stated for a string built from a first character. */
  lemma SplitCons(c: char, tail: string, sep: char)
    ensures Split([c] + tail, sep) ==
      if c == sep then [""] + Split(tail, sep)
      else [[c] + Split(tail, sep)[0]] + Split(tail, sep)[1..]
  {
    var s := [c] + tail;
    assert s[0] == c && s[1..] == tail;
  }

  /** One step of `Join`. */
  lemma JoinCons(x: string, rest: seq<string>, sep: string)
    requires rest != []
    ensures Join([x] + rest, sep) == x + sep + Join(rest, sep)
  {
    assert ([x] + rest)[1..] == rest;
  }

  /** `parts.join(sep)` */
  function Join(parts: seq<string>, sep: string): string
    decreases |parts|
  {
    if parts == [] then ""
    else if |parts| == 1 then parts[0]
    else parts[0] + sep + Join(parts[1..], sep)
  }

  /** Joining the parts back with the separator gives the original string. */
  lemma {:induction false} JoinSplit(s: string, sep: char)
    ensures Join(Split(s, sep), [sep]) == s
    decreases |s|
  {
    if s != [] {
      var c, tail := s[0], s[1..];
      assert s == [c] + tail;
      JoinSplit(tail, sep);
      SplitCons(c, tail, sep);
      var rest := Split(tail, sep);
      if c == sep {
        JoinCons("", rest, [sep]);
      } else if |rest| == 1 {
        assert Split(s, sep) == [[c] + rest[0]];
        assert Join(rest, [sep]) == rest[0];
      } else {
        assert rest == [rest[0]] + rest[1..];
        JoinCons(rest[0], rest[1..], [sep]);
        JoinCons([c] + rest[0], rest[1..], [sep]);
      }
    }
  }

  /** Splitting a join of separator-free parts gives the parts back. */
  lemma {:induction false} SplitJoin(parts: seq<string>, sep: char)
    requires |parts| >= 1
    requires forall i :: 0 <= i < |parts| ==> sep !in parts[i]
    ensures Split(Join(parts, [sep]), sep) == parts
    decreases |parts|
  {
    if |parts| == 1 {
      SplitNoSeparator(parts[0], sep);
    } else {
      SplitJoin(parts[1..], sep);
      SplitAppend(parts[0], Join(parts[1..], [sep]), sep);
      SplitNoSeparator(parts[0], sep);
      assert Join(parts, [sep]) == parts[0] + [sep] + Join(parts[1..], [sep]);
    }
  }

  /** A string without the separator splits into itself alone. */
  lemma {:induction false} SplitNoSeparator(w: string, sep: char)
    requires sep !in w
    ensures Split(w, sep) == [w]
    decreases |w|
  {
    if w != [] {
      assert sep !in w[1..];
      SplitNoSeparator(w[1..], sep);
      assert [w[0]] + w[1..] == w;
    }
  }

  /** A separator between two strings separates their parts. */
  lemma {:induction false} SplitAppend(a: string, b: string, sep: char)
    ensures Split(a + [sep] + b, sep) == Split(a, sep) + Split(b, sep)
    decreases |a|
  {
    if a == [] {
      assert a + [sep] + b == [sep] + b;
      SplitCons(sep, b, sep);
    } else {
      var c, tail := a[0], a[1..];
      var t := tail + [sep] + b;
      assert a == [c] + tail && a + [sep] + b == [c] + t;
      SplitAppend(tail, b, sep);
      SplitCons(c, t, sep);
      SplitCons(c, tail, sep);
      ExtendFirstPart(c, c == sep, Split(tail, sep), Split(b, sep));
    }
  }

  /** The list algebra behind one step of SplitAppend. */
  lemma ExtendFirstPart(c: char, isSep: bool, pa: seq<string>, pb: seq<string>)
    requires |pa| >= 1
    ensures (if isSep then [""] + (pa + pb) else [[c] + (pa + pb)[0]] + (pa + pb)[1..])
         == (if isSep then [""] + pa else [[c] + pa[0]] + pa[1..]) + pb
  {
    if !isSep {
      assert (pa + pb)[1..] == pa[1..] + pb;
    }
  }

  /** With the empty separator, joining distributes over concatenation. */
  lemma {:induction false} JoinAppend(xs: seq<string>, ys: seq<string>)
    ensures Join(xs + ys, "") == Join(xs, "") + Join(ys, "")
    decreases |xs|
  {
    if xs == [] {
      assert xs + ys == ys;
    } else if |xs| == 1 {
      if ys != [] {
        assert (xs + ys)[1..] == ys;
      }
    } else {
      assert (xs + ys)[1..] == xs[1..] + ys;
      JoinAppend(xs[1..], ys);
    }
  }
}
