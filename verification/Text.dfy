/** Text as the services clean it. */
module Text {
  /** The white space of Latin-1. */
  predicate Blank(c: char) {
    c == ' ' || '\t' <= c <= '\r' || '\U{1C}' <= c <= '\U{1F}' || c == '\U{85}' || c == '\U{A0}'
  }

  /** The text without surrounding blanks. */
  function Strip(s: string): (r: string)
    ensures |r| <= |s|
    ensures Stripped(r)
    ensures Stripped(s) ==> r == s
    decreases |s|
  {
    if s == [] then s
    else if Blank(s[0]) then Strip(s[1..])
    else if Blank(s[|s| - 1]) then Strip(s[..|s| - 1])
    else s
  }

  predicate Stripped(s: string) {
    s == [] || (!Blank(s[0]) && !Blank(s[|s| - 1]))
  }

  predicate Blanks(s: string) {
    forall i :: 0 <= i < |s| ==> Blank(s[i])
  }

  /** Between these places stands the stripped text, and around them only blanks. */
  ghost predicate CutAt(s: string, from: nat, to: nat) {
    from <= to <= |s| && Strip(s) == s[from..to] && Blanks(s[..from]) && Blanks(s[to..])
  }

  lemma CutAfterBlank(s: string, from: nat, to: nat)
    requires s != [] && Blank(s[0]) && CutAt(s[1..], from, to)
    ensures CutAt(s, from + 1, to + 1)
  {
    assert s[..from + 1] == [s[0]] + s[1..][..from];
    assert s[to + 1..] == s[1..][to..] && s[from + 1..to + 1] == s[1..][from..to];
  }

  lemma CutBeforeBlank(s: string, from: nat, to: nat)
    requires s != [] && !Blank(s[0]) && Blank(s[|s| - 1]) && CutAt(s[..|s| - 1], from, to)
    ensures CutAt(s, from, to)
  {
    var front := s[..|s| - 1];
    assert s[to..] == front[to..] + [s[|s| - 1]];
    assert s[..from] == front[..from] && s[from..to] == front[from..to];
  }

  /** Only blanks go, and only at the ends. */
  lemma {:induction false} StripCutsBlanks(s: string)
    ensures exists from: nat, to: nat :: CutAt(s, from, to)
    decreases |s|
  {
    if s == [] || (!Blank(s[0]) && !Blank(s[|s| - 1])) {
      assert s[0..|s|] == s;
      assert CutAt(s, 0, |s|);
    } else if Blank(s[0]) {
      StripCutsBlanks(s[1..]);
      var from: nat, to: nat :| CutAt(s[1..], from, to);
      CutAfterBlank(s, from, to);
    } else {
      StripCutsBlanks(s[..|s| - 1]);
      var from: nat, to: nat :| CutAt(s[..|s| - 1], from, to);
      CutBeforeBlank(s, from, to);
    }
  }
}
