/** The avatar fallback of a team member: `member.name.split(' ').map(n => n[0]).join('')`. */
module AvatarInitials {
  import opened Wrappers
  import opened JsArrays
  import opened JsStrings

  /** `n[0]`: the first character, or `undefined` for the empty string. */
  function FirstChar(n: string): Option<char>
  {
    if n == [] then None else Some(n[0])
  }

  /** How `join` renders an element: `undefined` becomes the empty string. */
  function Rendered(x: Option<char>): string
  {
    match x
    case None => ""
    case Some(c) => [c]
  }

  /** `.map(n => n[0])`, each element as `join` renders it. */
  function RenderedFirstChars(parts: seq<string>): seq<string>
  {
    seq(|parts|, i requires 0 <= i < |parts| => Rendered(FirstChar(parts[i])))
  }

  function Initials(name: string): string
  {
    Join(RenderedFirstChars(Split(name, ' ')), "")
  }

  predicate IsWord(part: string)
  {
    part != []
  }

  /** The first characters of words, in order. */
  function Heads(words: seq<string>): string
    requires forall i :: 0 <= i < |words| ==> words[i] != []
  {
    seq(|words|, i requires 0 <= i < |words| => words[i][0])
  }

  lemma {:induction false} JoinRenderedFirstChars(parts: seq<string>)
    ensures Join(RenderedFirstChars(parts), "") == Heads(Filter(parts, IsWord))
    decreases |parts|
  {
    if parts != [] {
      var p, rest := parts[0], parts[1..];
      assert parts == [p] + rest;
      JoinRenderedFirstChars(rest);
      RenderedFirstCharsAppend([p], rest);
      JoinAppend(RenderedFirstChars([p]), RenderedFirstChars(rest));
      FilterCons(p, rest, IsWord);
      if IsWord(p) {
        HeadsCons(p, Filter(rest, IsWord));
      }
    }
  }

  lemma RenderedFirstCharsAppend(pa: seq<string>, pb: seq<string>)
    ensures RenderedFirstChars(pa + pb) == RenderedFirstChars(pa) + RenderedFirstChars(pb)
  {
  }

  lemma HeadsCons(w: string, words: seq<string>)
    requires w != [] && forall i :: 0 <= i < |words| ==> words[i] != []
    ensures Heads([w] + words) == [w[0]] + Heads(words)
  {
  }

  /**
   * The initials are the first characters of the non-empty space-separated parts,
   * in order: an empty part (from a leading, trailing or doubled space) contributes nothing.
   */
  lemma InitialsAreWordHeads(name: string)
    ensures Initials(name) == Heads(Filter(Split(name, ' '), IsWord))
  {
    JoinRenderedFirstChars(Split(name, ' '));
  }

  /** With no empty part, there is one initial per word, each the first character of its word. */
  lemma InitialsOfWords(name: string)
    requires forall i :: 0 <= i < |Split(name, ' ')| ==> Split(name, ' ')[i] != []
    ensures |Initials(name)| == |Split(name, ' ')|
    ensures forall i :: 0 <= i < |Split(name, ' ')| ==> Initials(name)[i] == Split(name, ' ')[i][0]
  {
    InitialsAreWordHeads(name);
    FilterAllKept(Split(name, ' '), IsWord);
  }

  /** A space is never an initial: the parts `split` returns hold no space. */
  lemma InitialsHaveNoSpace(name: string)
    ensures ' ' !in Initials(name)
  {
    InitialsAreWordHeads(name);
    SplitPartsExcludeSeparator(name, ' ');
    var words := Filter(Split(name, ' '), IsWord);
    forall i | 0 <= i < |words|
      ensures Heads(words)[i] != ' '
    {
      assert words[i] in Split(name, ' ');
      assert words[i][0] in words[i];
    }
  }

  /** A single word yields its first character. */
  lemma InitialsOfWord(w: string)
    requires w != [] && ' ' !in w
    ensures Initials(w) == [w[0]]
  {
    SplitNoSeparator(w, ' ');
    assert RenderedFirstChars([w]) == [[w[0]]];
  }

  /** The initials of names joined by a space are the initials of each, concatenated. */
  lemma InitialsAppend(a: string, b: string)
    ensures Initials(a + " " + b) == Initials(a) + Initials(b)
  {
    SplitAppend(a, b, ' ');
    var pa, pb := Split(a, ' '), Split(b, ' ');
    RenderedFirstCharsAppend(pa, pb);
    JoinAppend(RenderedFirstChars(pa), RenderedFirstChars(pb));
  }
}
