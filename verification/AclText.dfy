/** The text form of an access control list: parsing, and the round trip with its canonical text. */
module AclText {
  import opened Options
  import opened StrChr

  const MAX_ENTRIES := 10000

  datatype Tag = UserObj | User | GroupObj | Group | Mask | Other

  datatype Perms = Perms(r: bool, w: bool, x: bool)

  /** perms is None where the text may not give permissions. */
  datatype Ace = Ace(tag: Tag, qual: nat, perms: Option<Perms>)

  /** How user and group names are turned into numbers and back; a number is also a name. */
  datatype Names = Names(uid: string -> Option<nat>, gid: string -> Option<nat>,
                         user: nat -> string, group: nat -> string)

  function ParseTag(s: string, hasQual: bool): Option<Tag> {
    if s == "u" || s == "user" then Some(if hasQual then User else UserObj)
    else if s == "g" || s == "group" then Some(if hasQual then Group else GroupObj)
    else if s == "o" || s == "other" then Some(Other)
    else if s == "m" || s == "mask" then Some(Mask)
    else None
  }

  function ParsePerms(s: string, p: Perms): Option<Perms> {
    if s == "" then Some(p)
    else if s[0] == 'r' then ParsePerms(s[1..], p.(r := true))
    else if s[0] == 'w' then ParsePerms(s[1..], p.(w := true))
    else if s[0] == 'x' then ParsePerms(s[1..], p.(x := true))
    else if s[0] == '-' then ParsePerms(s[1..], p)
    else None
  }

  const NO_PERMS := Perms(false, false, false)

  function ParseQual(tag: Tag, s: string, names: Names): Option<nat> {
    if tag.User? then names.uid(s) else if tag.Group? then names.gid(s) else Some(0)
  }

  /** One entry, tag:[qualifier][:[permissions]]. */
  function ParseEntry(s: string, permsReqd: bool, names: Names): Option<Ace> {
    var (tagText, rest) := Cut(s, ':');
    if rest.None? then None else
    var hasQual := rest.value != "" && rest.value[0] != ':';
    var (qualText, permText) := Cut(rest.value, ':');
    var hasPerms := permText.Some? && permText.value != "";
    if hasPerms != permsReqd then None else
    var tag := ParseTag(tagText, hasQual);
    if tag.None? then None else
    var qual := ParseQual(tag.value, qualText, names);
    if qual.None? then None else
    if !hasPerms then Some(Ace(tag.value, qual.value, None)) else
    var perms := ParsePerms(permText.value, NO_PERMS);
    if perms.None? then None else Some(Ace(tag.value, qual.value, perms))
  }

  /** The comma-separated list, with n entries already read. */
  function ParseFrom(s: string, n: nat, permsReqd: bool, names: Names): Option<seq<Ace>>
    decreases |s|
  {
    if n >= MAX_ENTRIES then None else
    var (entry, rest) := Cut(s, ',');
    var ace := ParseEntry(entry, permsReqd, names);
    if ace.None? then None
    else if rest.None? then Some([ace.value])
    else match ParseFrom(rest.value, n + 1, permsReqd, names)
      case None => None
      case Some(more) => Some([ace.value] + more)
  }

  // ---- the canonical text -------------------------------------------------------------------

  function TagText(tag: Tag): string {
    match tag
    case UserObj => "user"
    case User => "user"
    case GroupObj => "group"
    case Group => "group"
    case Mask => "mask"
    case Other => "other"
  }

  function QualText(a: Ace, names: Names): string {
    if a.tag.User? then names.user(a.qual) else if a.tag.Group? then names.group(a.qual) else ""
  }

  function PermText(p: Perms): string {
    [if p.r then 'r' else '-', if p.w then 'w' else '-', if p.x then 'x' else '-']
  }

  function EntryText(a: Ace, names: Names): string {
    TagText(a.tag) + ":" + QualText(a, names) + if a.perms.Some? then ":" + PermText(a.perms.value) else ""
  }

  function ListText(list: seq<Ace>, names: Names): string
    requires list != []
  {
    if |list| == 1 then EntryText(list[0], names)
    else EntryText(list[0], names) + "," + ListText(list[1..], names)
  }

  /** A name can stand in an entry, and its number is found again. */
  ghost predicate GoodName(s: string) {
    s != "" && ':' !in s && ',' !in s
  }

  ghost predicate Writable(a: Ace, permsReqd: bool, names: Names) {
    && a.perms.Some? == permsReqd
    && match a.tag
       case User => GoodName(names.user(a.qual)) && names.uid(names.user(a.qual)) == Some(a.qual)
       case Group => GoodName(names.group(a.qual)) && names.gid(names.group(a.qual)) == Some(a.qual)
       case _ => a.qual == 0
  }

  lemma PermsRoundTrip(p: Perms)
    ensures ParsePerms(PermText(p), NO_PERMS) == Some(p)
  {
    var s := PermText(p);
    var one, two := s[1..], s[1..][1..];
    assert one == [if p.w then 'w' else '-', if p.x then 'x' else '-'] && two == [if p.x then 'x' else '-'];
    var p1 := Perms(p.r, false, false);
    var p2 := Perms(p.r, p.w, false);
    assert ParsePerms(s, NO_PERMS) == ParsePerms(one, p1) == ParsePerms(two, p2) == ParsePerms(two[1..], p);
  }

  lemma PermTextPlain(p: Perms)
    ensures PermText(p) != "" && ',' !in PermText(p)
  {
  }

  lemma TagRoundTrip(a: Ace)
    ensures ParseTag(TagText(a.tag), a.tag.User? || a.tag.Group?) == Some(a.tag)
    ensures ':' !in TagText(a.tag) && ',' !in TagText(a.tag)
  {
  }

  lemma EntryRoundTrip(a: Ace, permsReqd: bool, names: Names)
    requires Writable(a, permsReqd, names)
    ensures ParseEntry(EntryText(a, names), permsReqd, names) == Some(a)
    ensures ',' !in EntryText(a, names)
  {
    var q := QualText(a, names);
    TagRoundTrip(a);
    hide Cut, ParseTag, TagText, PermText, ParsePerms;
    if a.perms.Some? {
      var p := PermText(a.perms.value);
      var rest := q + ":" + p;
      assert EntryText(a, names) == TagText(a.tag) + ":" + rest;
      CutAt(TagText(a.tag), ':', rest);
      CutAt(q, ':', p);
      PermsRoundTrip(a.perms.value);
      PermTextPlain(a.perms.value);
    } else {
      assert EntryText(a, names) == TagText(a.tag) + ":" + q;
      CutAt(TagText(a.tag), ':', q);
      CutNone(q, ':');
    }
  }

  /** Parsing the canonical text gives the list back, exactly when it is not too long. */
  lemma {:induction false} ListRoundTrip(list: seq<Ace>, n: nat, permsReqd: bool, names: Names)
    requires list != [] && forall i :: 0 <= i < |list| ==> Writable(list[i], permsReqd, names)
    ensures ParseFrom(ListText(list, names), n, permsReqd, names)
         == if n + |list| <= MAX_ENTRIES then Some(list) else None
  {
    hide ParseEntry, EntryText;
    EntryRoundTrip(list[0], permsReqd, names);
    var e := EntryText(list[0], names);
    if |list| == 1 {
      CutNone(e, ',');
      assert list == [list[0]];
    } else {
      CutAt(e, ',', ListText(list[1..], names));
      ListRoundTrip(list[1..], n + 1, permsReqd, names);
      assert list == [list[0]] + list[1..];
    }
  }
}
