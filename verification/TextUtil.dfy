/** String helpers shared by the models. Trimming is that of ASCII white space. */
module TextUtil {

  predicate IsSpace(c: char) {
    c == ' ' || c == '\t' || c == '\r' || c == '\n'
  }

  function TrimLeft(s: string): string {
    if s != "" && IsSpace(s[0]) then TrimLeft(s[1..]) else s
  }

  function TrimRight(s: string): string {
    if s != "" && IsSpace(s[|s| - 1]) then TrimRight(s[..|s| - 1]) else s
  }

  function Trim(s: string): string {
    TrimLeft(TrimRight(s))
  }

  predicate AllBlank(s: string) {
    forall i | 0 <= i < |s| :: s[i] in [' ', '\t', '\r', '\n']
  }

  predicate BlankFreeEnds(s: string) {
    s != "" ==> s[0] !in [' ', '\t', '\r', '\n'] && s[|s| - 1] !in [' ', '\t', '\r', '\n']
  }

  lemma {:induction false} LeftBlanksGo(pre: string, core: string)
    requires AllBlank(pre) && BlankFreeEnds(core)
    ensures TrimLeft(pre + core) == core
  {
    if pre == "" {
      assert pre + core == core;
    } else {
      assert (pre + core)[1..] == pre[1..] + core && IsSpace(pre[0]);
      LeftBlanksGo(pre[1..], core);
    }
  }

  lemma {:induction false} RightBlanksGo(s: string, post: string)
    requires AllBlank(post) && (s != "" ==> s[|s| - 1] !in [' ', '\t', '\r', '\n'])
    ensures TrimRight(s + post) == s
    decreases |post|
  {
    if post == "" {
      assert s + post == s;
    } else {
      var n := |post| - 1;
      assert (s + post)[..|s| + n] == s + post[..n] && IsSpace(post[n]);
      RightBlanksGo(s, post[..n]);
    }
  }

  lemma {:induction false} BlanksGo(s: string)
    requires AllBlank(s)
    ensures TrimRight(s) == ""
  {
    assert "" + s == s;
    RightBlanksGo("", s);
  }

  /** Trimming takes the blanks at both ends and nothing else. */
  lemma TrimIs(pre: string, core: string, post: string)
    requires AllBlank(pre) && AllBlank(post) && BlankFreeEnds(core)
    ensures Trim(pre + core + post) == core
  {
    if core == "" {
      assert pre + core + post == pre + post;
      BlanksGo(pre + post);
    } else {
      RightBlanksGo(pre + core, post);
      LeftBlanksGo(pre, core);
    }
  }
}
