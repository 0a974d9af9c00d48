/** The parser as it works: on one buffer, cutting it into strings with terminators as it goes. */
module AclParser {
  import opened Options
  import opened StrChr
  import opened AclText
  import AclGrammar

  /** The buffer holds s at this position, with its terminator. */
  ghost predicate Holds(b: seq<char>, at: nat, s: string) {
    at + |s| < |b| && b[at..at + |s|] == s && b[at + |s|] == '\0' && '\0' !in s
  }

  lemma HoldsAt(b: seq<char>, at: nat, s: string, k: nat)
    requires Holds(b, at, s) && k < |s|
    ensures b[at + k] == s[k] && s[k] != '\0'
  {
  }

  lemma HoldsEnd(b: seq<char>, at: nat, s: string)
    requires Holds(b, at, s)
    ensures at + |s| < |b| && b[at + |s|] == '\0'
  {
  }

  /** Writing a terminator over one character splits the string in two. */
  lemma CutHolds(b: seq<char>, b': seq<char>, at: nat, s: string, k: nat)
    requires Holds(b, at, s) && k < |s| && b' == b[at + k := '\0']
    ensures Holds(b', at, s[..k]) && Holds(b', at + k + 1, s[k + 1..])
  {
  }

  lemma CutFirst(s: string, c: char, k: nat)
    requires k < |s| && s[k] == c && forall j :: 0 <= j < k ==> s[j] != c
    ensures Cut(s, c) == (s[..k], Some(s[k + 1..]))
  {
    assert s == s[..k] + [c] + s[k + 1..] && c !in s[..k];
    CutAt(s[..k], c, s[k + 1..]);
  }

  method FindChar(buf: array<char>, at: nat, c: char, ghost s: string) returns (k: int)
    requires Holds(buf[..], at, s) && c != '\0'
    ensures -1 <= k < buf.Length && (k < 0 ==> Cut(s, c) == (s, None))
    ensures k >= 0 ==> at <= k < at + |s| && s[k - at] == c && Cut(s, c) == (s[..k - at], Some(s[k - at + 1..]))
  {
    hide Cut, Holds;
    HoldsEnd(buf[..], at, s);
    k := at;
    while buf[k] != '\0'
      invariant at <= k <= at + |s| < buf.Length && buf[at + |s|] == '\0'
      invariant forall j :: 0 <= j < k - at ==> s[j] != c
      decreases at + |s| - k
    {
      HoldsAt(buf[..], at, s, k - at);
      if buf[k] == c {
        CutFirst(s, c, k - at);
        return;
      }
      k := k + 1;
    }
    if k - at < |s| { HoldsAt(buf[..], at, s, k - at); }
    CutNone(s, c);
    k := -1;
  }

  method StrLen(buf: array<char>, at: nat, ghost s: string) returns (n: nat)
    requires Holds(buf[..], at, s)
    ensures n == |s|
  {
    n := 0;
    while buf[at + n] != '\0'
      invariant 0 <= n <= |s|
      decreases |s| - n
    {
      if n < |s| { HoldsAt(buf[..], at, s, n); }
      n := n + 1;
    }
    if n < |s| { HoldsAt(buf[..], at, s, n); }
  }

  /** The loop over the permission characters. */
  method ReadPerms(buf: array<char>, at: nat, ghost s: string) returns (perms: Option<Perms>)
    requires Holds(buf[..], at, s)
    ensures perms == ParsePerms(s, NO_PERMS)
  {
    var p, bits := 0, NO_PERMS;
    while buf[at + p] != '\0'
      invariant 0 <= p <= |s| && ParsePerms(s[p..], bits) == ParsePerms(s, NO_PERMS)
      decreases |s| - p
    {
      if p < |s| { HoldsAt(buf[..], at, s, p); }
      assert s[p..][0] == s[p] && s[p..][1..] == s[p + 1..];
      var ch := buf[at + p];
      if ch == 'r' {
        bits := bits.(r := true);
      } else if ch == 'w' {
        bits := bits.(w := true);
      } else if ch == 'x' {
        bits := bits.(x := true);
      } else if ch != '-' {
        return None;
      }
      p := p + 1;
    }
    if p < |s| { HoldsAt(buf[..], at, s, p); }
    return Some(bits);
  }

  /** The character after a separator, at the latest the terminator. */
  lemma NextChar(b: seq<char>, at: nat, s: string)
    requires Holds(b, at, s)
    ensures b[at] == if s == "" then '\0' else s[0]
    ensures s != "" ==> s[0] != '\0'
  {
  }

  ghost predicate SameOutside(b: seq<char>, b': seq<char>, from: nat, to: nat) {
    |b'| == |b| && forall k :: 0 <= k < |b| && (k < from || to <= k) ==> b'[k] == b[k]
  }

  /** Reads the qualifier and, after it, the permissions; colon2 is the second colon or -1. */
  method ParseRest(buf: array<char>, at: nat, colon2: int, tag: Tag, names: Names, hasPerms: bool, ghost rest: string)
    returns (ace: Option<Ace>)
    requires Holds(buf[..], at, rest)
    requires colon2 < 0 ==> Cut(rest, ':') == (rest, None) && !hasPerms
    requires colon2 >= 0 ==> at <= colon2 < at + |rest|
                             && Cut(rest, ':') == (rest[..colon2 - at], Some(rest[colon2 - at + 1..]))
    requires hasPerms ==> rest[colon2 - at + 1..] != ""
    modifies buf
    ensures var (qualText, permText) := Cut(rest, ':'); var qual := ParseQual(tag, qualText, names);
      ace == if qual.None? then None
             else if !hasPerms then Some(Ace(tag, qual.value, None))
             else match ParsePerms(permText.value, NO_PERMS)
               case None => None
               case Some(p) => Some(Ace(tag, qual.value, Some(p)))
    ensures SameOutside(old(buf[..]), buf[..], at, at + |rest|)
  {
    hide Cut, ParsePerms;
    ghost var qualText := Cut(rest, ':').0;
    if colon2 >= 0 {
      CutHolds(buf[..], buf[..][colon2 := '\0'], at, rest, colon2 - at);
      buf[colon2] := '\0';
    }
    var n := StrLen(buf, at, qualText);
    var qual := ParseQual(tag, buf[at..at + n], names);
    if qual.None? { return None; }
    if !hasPerms { return Some(Ace(tag, qual.value, None)); }
    var perms := ReadPerms(buf, colon2 + 1, rest[colon2 - at + 1..]);
    if perms.None? { return None; }
    return Some(Ace(tag, qual.value, perms));
  }

  /** Cuts the tag off at the first colon. */
  method CutTag(buf: array<char>, at: nat, ghost s: string) returns (colon1: int, hasQual: bool)
    requires Holds(buf[..], at, s)
    modifies buf
    ensures colon1 < 0 ==> Cut(s, ':') == (s, None) && buf[..] == old(buf[..])
    ensures colon1 >= 0 ==>
      && at <= colon1 < at + |s| && Cut(s, ':') == (s[..colon1 - at], Some(s[colon1 - at + 1..]))
      && Holds(buf[..], at, s[..colon1 - at]) && Holds(buf[..], colon1 + 1, s[colon1 - at + 1..])
      && SameOutside(old(buf[..]), buf[..], at, colon1 + 1)
      && (hasQual <==> s[colon1 - at + 1..] != "" && s[colon1 - at + 1] != ':')
  {
    hide Cut;
    colon1 := FindChar(buf, at, ':', s);
    hasQual := false;
    if colon1 >= 0 {
      ghost var rest := s[colon1 - at + 1..];
      CutHolds(buf[..], buf[..][colon1 := '\0'], at, s, colon1 - at);
      NextChar(buf[..][colon1 := '\0'], colon1 + 1, rest);
      hasQual := buf[colon1 + 1] != '\0' && buf[colon1 + 1] != ':';
      buf[colon1] := '\0';
    }
  }

  method FindPerms(buf: array<char>, at: nat, ghost rest: string) returns (colon2: int, hasPerms: bool)
    requires Holds(buf[..], at, rest)
    ensures colon2 < 0 ==> Cut(rest, ':') == (rest, None) && !hasPerms
    ensures colon2 >= 0 ==>
      && at <= colon2 < at + |rest| && Cut(rest, ':') == (rest[..colon2 - at], Some(rest[colon2 - at + 1..]))
      && (hasPerms <==> rest[colon2 - at + 1..] != "")
  {
    hide Cut;
    colon2 := FindChar(buf, at, ':', rest);
    hasPerms := false;
    if colon2 >= 0 {
      CutHolds(buf[..], buf[..][colon2 := '\0'], at, rest, colon2 - at);
      NextChar(buf[..][colon2 := '\0'], colon2 + 1, rest[colon2 - at + 1..]);
      hasPerms := buf[colon2 + 1] != '\0';
    }
  }

  method ParseEntrySpec(buf: array<char>, at: nat, permsReqd: bool, names: Names, ghost s: string)
    returns (ace: Option<Ace>)
    requires Holds(buf[..], at, s)
    modifies buf
    ensures ace == ParseEntry(s, permsReqd, names)
    ensures AclGrammar.EntryOf(s, ace, permsReqd, names)
    ensures SameOutside(old(buf[..]), buf[..], at, at + |s|)
  {
    hide Cut, ParsePerms, ParseTag, ParseQual, AclGrammar.EntryOf;
    AclGrammar.ParsedIsEntryOf(s, permsReqd, names);
    var colon1, hasQual := CutTag(buf, at, s);
    if colon1 < 0 { return None; }
    ghost var rest := s[colon1 - at + 1..];
    var colon2, hasPerms := FindPerms(buf, colon1 + 1, rest);
    if hasPerms != permsReqd { return None; }
    var n := StrLen(buf, at, s[..colon1 - at]);
    assert buf[at..at + n] == s[..colon1 - at];
    var tag := ParseTag(buf[at..at + n], hasQual);
    if tag.None? { return None; }
    ace := ParseRest(buf, colon1 + 1, colon2, tag.value, names, hasPerms, rest);
  }

  /** parseACL: the whole text, entry by entry. */
  method ParseAcl(buf: array<char>, permsReqd: bool, names: Names, ghost s: string) returns (list: Option<seq<Ace>>)
    requires Holds(buf[..], 0, s)
    modifies buf
    ensures list == ParseFrom(s, 0, permsReqd, names)
    ensures AclGrammar.ListOf(s, list, permsReqd, names)
  {
    hide ParseEntry, Cut, Holds, SameOutside, Joined, ParseFrom, AclGrammar.EntryOf, AclGrammar.ListOf;
    AclGrammar.ParsedIsListOf(s, permsReqd, names);
    var aclist: seq<Ace> := [];
    var nextEntry := 0;
    ghost var text := s;
    JoinedNone(ParseFrom(s, 0, permsReqd, names));
    while true
      invariant Holds(buf[..], nextEntry, text)
      invariant Joined(aclist, ParseFrom(text, |aclist|, permsReqd, names)) == ParseFrom(s, 0, permsReqd, names)
      decreases |text|
    {
      JoinedFails(aclist);
      ParseFromIs(text, |aclist|, permsReqd, names);
      if |aclist| >= MAX_ENTRIES { return None; }
      var comma := FindChar(buf, nextEntry, ',', text);
      ghost var entry := if comma >= 0 then text[..comma - nextEntry] else text;
      if comma >= 0 {
        CutHolds(buf[..], buf[..][comma := '\0'], nextEntry, text, comma - nextEntry);
        buf[comma] := '\0';
      }
      ghost var before := buf[..];
      var ace := ParseEntrySpec(buf, nextEntry, permsReqd, names, entry);
      if ace.None? { return None; }
      JoinedLast(aclist, ace.value);
      if comma < 0 { return Some(aclist + [ace.value]); }
      text := text[comma - nextEntry + 1..];
      SameHolds(before, buf[..], comma + 1, text, nextEntry, comma);
      JoinedMore(aclist, ace.value, ParseFrom(text, |aclist| + 1, permsReqd, names));
      aclist, nextEntry := aclist + [ace.value], comma + 1;
    }
  }

  ghost function Joined(list: seq<Ace>, rest: Option<seq<Ace>>): Option<seq<Ace>> {
    match rest
    case None => None
    case Some(more) => Some(list + more)
  }

  lemma ParseFromIs(s: string, n: nat, permsReqd: bool, names: Names)
    ensures var (entry, rest) := Cut(s, ','); var ace := ParseEntry(entry, permsReqd, names);
      ParseFrom(s, n, permsReqd, names)
        == if n >= MAX_ENTRIES || ace.None? then None
           else if rest.None? then Some([ace.value])
           else Joined([ace.value], ParseFrom(rest.value, n + 1, permsReqd, names))
  {
  }

  lemma JoinedFails(list: seq<Ace>)
    ensures Joined(list, None) == None
  {
  }

  lemma JoinedLast(list: seq<Ace>, a: Ace)
    ensures Joined(list, Some([a])) == Some(list + [a])
  {
  }

  lemma JoinedNone(rest: Option<seq<Ace>>)
    ensures Joined([], rest) == rest
  {
    if rest.Some? { assert [] + rest.value == rest.value; }
  }

  lemma JoinedMore(list: seq<Ace>, a: Ace, rest: Option<seq<Ace>>)
    ensures Joined(list, Joined([a], rest)) == Joined(list + [a], rest)
  {
    if rest.Some? { assert list + ([a] + rest.value) == list + [a] + rest.value; }
  }

  lemma SameHolds(b: seq<char>, b': seq<char>, at: nat, s: string, from: nat, to: nat)
    requires Holds(b, at, s) && SameOutside(b, b', from, to) && to <= at
    ensures Holds(b', at, s)
  {
  }
}
