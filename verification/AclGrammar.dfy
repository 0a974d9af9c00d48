/** The text forms that the entry specification allows, and that the parser accepts exactly those. */
module AclGrammar {
  import opened Options
  import opened StrChr
  import opened AclText

  /** The words for a tag, long and short. */
  ghost predicate TagWord(t: string, tag: Tag) {
    match tag
    case UserObj => t in {"u", "user"}
    case User => t in {"u", "user"}
    case GroupObj => t in {"g", "group"}
    case Group => t in {"g", "group"}
    case Mask => t in {"m", "mask"}
    case Other => t in {"o", "other"}
  }

  /** A named user or group has a qualifier that is known; the owner and the owning group have none; with the other
      tags a qualifier is not looked at. */
  ghost predicate Qualifies(q: string, a: Ace, names: Names) {
    match a.tag
    case UserObj => q == "" && a.qual == 0
    case User => q != "" && names.uid(q) == Some(a.qual)
    case GroupObj => q == "" && a.qual == 0
    case Group => q != "" && names.gid(q) == Some(a.qual)
    case Mask => a.qual == 0
    case Other => a.qual == 0
  }

  /** The characters r, w, x and - in any order and number, at least one. */
  ghost predicate Permits(s: string, p: Perms) {
    && s != "" && (forall i :: 0 <= i < |s| ==> s[i] in "rwx-")
    && (p.r <==> 'r' in s) && (p.w <==> 'w' in s) && (p.x <==> 'x' in s)
  }

  /** What follows the qualifier: a colon and permissions where they are required, else at most a colon. */
  ghost predicate Tail(tail: string, perms: Option<Perms>, permsReqd: bool) {
    if permsReqd then perms.Some? && tail != "" && tail[0] == ':' && Permits(tail[1..], perms.value)
    else perms.None? && (tail == "" || tail == ":")
  }

  ghost predicate Parts(s: string, t: string, q: string, tail: string, a: Ace, permsReqd: bool, names: Names) {
    && s == t + ":" + q + tail && ':' !in q
    && TagWord(t, a.tag) && Qualifies(q, a, names) && Tail(tail, a.perms, permsReqd)
  }

  /** tag:[qualifier][:[permissions]] */
  ghost predicate Spells(s: string, a: Ace, permsReqd: bool, names: Names) {
    exists t, q, tail :: Parts(s, t, q, tail, a, permsReqd, names)
  }

  lemma TagParses(t: string, q: string, tag: Tag)
    requires TagWord(t, tag)
    requires (tag.UserObj? || tag.GroupObj? ==> q == "") && (tag.User? || tag.Group? ==> q != "")
    ensures ParseTag(t, q != "") == Some(tag) && ':' !in t
  {
  }

  lemma TagParsed(t: string, hasQual: bool)
    requires ParseTag(t, hasQual).Some?
    ensures var tag := ParseTag(t, hasQual).value;
      TagWord(t, tag) && (tag.User? || tag.Group? ==> hasQual) && (tag.UserObj? || tag.GroupObj? ==> !hasQual)
  {
  }

  /** The permissions are the union of what the characters say, and one bad character spoils them. */
  lemma {:induction false} PermsParse(s: string, p: Perms)
    ensures ParsePerms(s, p)
         == if forall i :: 0 <= i < |s| ==> s[i] in "rwx-"
            then Some(Perms(p.r || 'r' in s, p.w || 'w' in s, p.x || 'x' in s)) else None
  {
    if s != "" {
      var c, rest := s[0], s[1..];
      assert s == [c] + rest;
      assert (forall i :: 0 <= i < |s| ==> s[i] in "rwx-") <==>
             c in "rwx-" && forall i :: 0 <= i < |rest| ==> rest[i] in "rwx-" by {
        if forall i :: 0 <= i < |s| ==> s[i] in "rwx-" {
          forall i | 0 <= i < |rest| ensures rest[i] in "rwx-" { assert rest[i] == s[i + 1]; }
        }
      }
      if c == 'r' {
        PermsParse(rest, p.(r := true));
      } else if c == 'w' {
        PermsParse(rest, p.(w := true));
      } else if c == 'x' {
        PermsParse(rest, p.(x := true));
      } else if c == '-' {
        PermsParse(rest, p);
      }
    }
  }

  lemma SpelledParses(s: string, t: string, q: string, tail: string, a: Ace, permsReqd: bool, names: Names)
    requires Parts(s, t, q, tail, a, permsReqd, names)
    ensures ParseEntry(s, permsReqd, names) == Some(a)
  {
    TagParses(t, q, a.tag);
    hide Cut, ParseTag, TagWord, ParsePerms, Permits;
    var rest := q + tail;
    assert s == t + [':'] + rest;
    CutAt(t, ':', rest);
    RestParses(q, tail, rest);
    if tail != "" && tail != ":" { PermitsParse(tail[1..], a.perms.value); }
  }

  lemma RestParses(q: string, tail: string, rest: string)
    requires ':' !in q && rest == q + tail && (tail == "" || tail[0] == ':')
    ensures Cut(rest, ':') == (q, if tail == "" then None else Some(tail[1..]))
    ensures (rest != "" && rest[0] != ':') <==> q != ""
  {
    hide Cut;
    if tail == "" {
      assert rest == q;
      CutNone(q, ':');
    } else {
      assert rest == q + [':'] + tail[1..];
      CutAt(q, ':', tail[1..]);
    }
  }

  lemma PermitsParse(s: string, p: Perms)
    requires Permits(s, p)
    ensures s != "" && ParsePerms(s, NO_PERMS) == Some(p)
  {
    PermsParse(s, NO_PERMS);
  }

  lemma ParsedSpells(s: string, permsReqd: bool, names: Names)
    requires ParseEntry(s, permsReqd, names).Some?
    ensures Spells(s, ParseEntry(s, permsReqd, names).value, permsReqd, names)
  {
    hide ParseTag, TagWord, ParsePerms;
    var a := ParseEntry(s, permsReqd, names).value;
    var (t, after) := Cut(s, ':');
    var rest := after.value;
    var (q, permText) := Cut(rest, ':');
    var tail := if permText.None? then "" else ":" + permText.value;
    assert rest == q + tail;
    assert s == t + ":" + q + tail;
    TagParsed(t, rest != "" && rest[0] != ':');
    if q != "" { assert rest[0] == q[0]; }
    if permText.Some? {
      PermsParse(permText.value, NO_PERMS);
      assert tail[1..] == permText.value;
    }
    assert Parts(s, t, q, tail, a, permsReqd, names);
  }

  /** The parser accepts exactly the texts that spell an entry, and gives that entry. */
  lemma ParsesSpellings(s: string, a: Ace, permsReqd: bool, names: Names)
    ensures ParseEntry(s, permsReqd, names) == Some(a) <==> Spells(s, a, permsReqd, names)
  {
    hide ParseEntry, Parts;
    if ParseEntry(s, permsReqd, names) == Some(a) { ParsedSpells(s, permsReqd, names); }
    if t, q, tail :| Parts(s, t, q, tail, a, permsReqd, names) {
      SpelledParses(s, t, q, tail, a, permsReqd, names);
    }
  }

  /** The result of parsing s: the entry that s spells, or none where it spells none. */
  ghost predicate EntryOf(s: string, ace: Option<Ace>, permsReqd: bool, names: Names) {
    forall a :: ace == Some(a) <==> Spells(s, a, permsReqd, names)
  }

  lemma ParsedIsEntryOf(s: string, permsReqd: bool, names: Names)
    ensures EntryOf(s, ParseEntry(s, permsReqd, names), permsReqd, names)
  {
    hide ParseEntry, Spells;
    forall a { ParsesSpellings(s, a, permsReqd, names); }
  }

  /** A text with an unknown tag is refused, and so is one without a colon. */
  lemma BadTag(s: string, t: string, rest: string, permsReqd: bool, names: Names)
    ensures ':' !in s ==> ParseEntry(s, permsReqd, names) == None
    ensures s == t + ":" + rest && ':' !in t && t !in {"u", "user", "g", "group", "o", "other", "m", "mask"} ==>
              ParseEntry(s, permsReqd, names) == None
  {
    if ':' !in s {
      CutNone(s, ':');
    } else if s == t + ":" + rest && ':' !in t {
      CutAt(t, ':', rest);
    }
  }

  /** Permissions that are missing, not wanted, or written with another character are refused. */
  lemma BadPerms(s: string, t: string, q: string, p: string, permsReqd: bool, names: Names)
    requires ':' !in t && ':' !in q
    ensures s == t + ":" + q && permsReqd ==> ParseEntry(s, permsReqd, names) == None
    ensures s == t + ":" + q + ":" + p && permsReqd == (p == "") ==> ParseEntry(s, permsReqd, names) == None
    ensures s == t + ":" + q + ":" + p && (exists i :: 0 <= i < |p| && p[i] !in "rwx-") ==>
              ParseEntry(s, permsReqd, names) == None
  {
    hide Cut, ParseTag, ParsePerms;
    if s == t + ":" + q {
      CutAt(t, ':', q);
      CutNone(q, ':');
    } else if s == t + ":" + q + ":" + p {
      assert s == t + [':'] + (q + [':'] + p);
      CutAt(t, ':', q + [':'] + p);
      CutAt(q, ':', p);
      PermsParse(p, NO_PERMS);
    }
  }

  // ---- lists --------------------------------------------------------------------------------

  /** Comma-free texts, one for each entry. */
  ghost predicate SpellsEach(pieces: seq<string>, list: seq<Ace>, permsReqd: bool, names: Names) {
    && |pieces| == |list|
    && forall i :: 0 <= i < |list| ==> ',' !in pieces[i] && Spells(pieces[i], list[i], permsReqd, names)
  }

  /** One entry or more, with commas between them. */
  ghost predicate SpellsList(s: string, list: seq<Ace>, permsReqd: bool, names: Names) {
    list != [] && exists pieces :: SpellsEach(pieces, list, permsReqd, names) && JoinWith(pieces, ',') == s
  }

  lemma {:induction false} ListSpelled(pieces: seq<string>, list: seq<Ace>, n: nat, permsReqd: bool, names: Names)
    requires list != [] && SpellsEach(pieces, list, permsReqd, names) && n + |list| <= MAX_ENTRIES
    ensures ParseFrom(JoinWith(pieces, ','), n, permsReqd, names) == Some(list)
    decreases |list|
  {
    hide ParseEntry, Spells, Cut;
    ParsesSpellings(pieces[0], list[0], permsReqd, names);
    if |list| == 1 {
      CutNone(pieces[0], ',');
      assert list == [list[0]];
    } else {
      CutAt(pieces[0], ',', JoinWith(pieces[1..], ','));
      ListSpelled(pieces[1..], list[1..], n + 1, permsReqd, names);
      assert list == [list[0]] + list[1..];
    }
  }

  lemma {:induction false} ListParsed(s: string, n: nat, permsReqd: bool, names: Names) returns (pieces: seq<string>)
    requires ParseFrom(s, n, permsReqd, names).Some?
    ensures var list := ParseFrom(s, n, permsReqd, names).value;
      && list != [] && n + |list| <= MAX_ENTRIES
      && SpellsEach(pieces, list, permsReqd, names) && JoinWith(pieces, ',') == s
    decreases |s|
  {
    hide ParseEntry, Spells;
    var (entry, rest) := Cut(s, ',');
    ParsesSpellings(entry, ParseEntry(entry, permsReqd, names).value, permsReqd, names);
    pieces := [entry];
    if rest.Some? {
      var more := ListParsed(rest.value, n + 1, permsReqd, names);
      pieces := [entry] + more;
      assert pieces[1..] == more;
    }
  }

  /** The list parser accepts exactly the spelled lists of at most MAX_ENTRIES entries, and gives that list. */
  lemma ParsesLists(s: string, list: seq<Ace>, permsReqd: bool, names: Names)
    ensures ParseFrom(s, 0, permsReqd, names) == Some(list) <==>
            SpellsList(s, list, permsReqd, names) && |list| <= MAX_ENTRIES
  {
    hide ParseFrom, Spells;
    if ParseFrom(s, 0, permsReqd, names) == Some(list) { var pieces := ListParsed(s, 0, permsReqd, names); }
    if SpellsList(s, list, permsReqd, names) && |list| <= MAX_ENTRIES {
      var pieces :| SpellsEach(pieces, list, permsReqd, names) && JoinWith(pieces, ',') == s;
      ListSpelled(pieces, list, 0, permsReqd, names);
    }
  }

  /** The result of parsing s: the list that s spells, or none where it spells none or a list that is too long. */
  ghost predicate ListOf(s: string, result: Option<seq<Ace>>, permsReqd: bool, names: Names) {
    forall list :: result == Some(list) <==> SpellsList(s, list, permsReqd, names) && |list| <= MAX_ENTRIES
  }

  lemma ParsedIsListOf(s: string, permsReqd: bool, names: Names)
    ensures ListOf(s, ParseFrom(s, 0, permsReqd, names), permsReqd, names)
  {
    hide ParseFrom, SpellsList;
    forall list { ParsesLists(s, list, permsReqd, names); }
  }
}
