/** The search for a separator, on which the parsers of ACL texts and of PATH rest. */
module StrChr {
  import opened Options

  /** strchr: the text before the first c, and the text after it if there is one. */
  function Cut(s: string, c: char): (r: (string, Option<string>))
    ensures c !in r.0 && (r.1.Some? ==> s == r.0 + [c] + r.1.value) && (r.1.None? ==> s == r.0)
  {
    if s == "" then ("", None)
    else if s[0] == c then ("", Some(s[1..]))
    else
      var (before, after) := Cut(s[1..], c);
      assert s == [s[0]] + s[1..];
      ([s[0]] + before, after)
  }

  lemma {:induction false} CutAt(a: string, c: char, b: string)
    requires c !in a
    ensures Cut(a + [c] + b, c) == (a, Some(b))
  {
    if a == "" {
      assert (a + [c] + b)[1..] == b;
    } else {
      assert (a + [c] + b)[1..] == a[1..] + [c] + b && a == [a[0]] + a[1..];
      CutAt(a[1..], c, b);
    }
  }

  lemma {:induction false} CutNone(a: string, c: char)
    requires c !in a
    ensures Cut(a, c) == (a, None)
  {
  }

  /** Texts put together with a separator between them: what repeated cutting undoes. */
  function JoinWith(ps: seq<string>, c: char): string
    requires ps != []
  {
    if |ps| == 1 then ps[0] else ps[0] + [c] + JoinWith(ps[1..], c)
  }
}
