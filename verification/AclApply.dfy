/** Applying a parsed list to the access control list of a file, entry by entry. */
module AclApply {
  import opened Options
  import opened AclText

  datatype AclEntry = AclEntry(tag: Tag, qual: nat, perms: Perms)

  /** An entry is identified by its tag and, for a named user or group, its qualifier. */
  datatype Id = Id(tag: Tag, qual: nat)

  function IdOf(tag: Tag, qual: nat): Id {
    Id(tag, if tag.User? || tag.Group? then qual else 0)
  }

  ghost predicate Unique(acl: seq<AclEntry>) {
    forall i, j :: 0 <= i < j < |acl| ==> IdOf(acl[i].tag, acl[i].qual) != IdOf(acl[j].tag, acl[j].qual)
  }

  /** The permissions that the list gives an identity. */
  function PermsAt(acl: seq<AclEntry>, id: Id): Option<Perms> {
    if acl == [] then None
    else if IdOf(acl[0].tag, acl[0].qual) == id then Some(acl[0].perms)
    else PermsAt(acl[1..], id)
  }

  /** The list as a map: the last entry for an identity decides, and the others leave it alone. */
  function Override(list: seq<Ace>, remove: bool, id: Id, start: Option<Perms>): Option<Perms> {
    if list == [] then start
    else
      var a := list[|list| - 1];
      if IdOf(a.tag, a.qual) == id then (if remove then None else a.perms)
      else Override(list[..|list| - 1], remove, id, start)
  }

  /** The entry at k is the last of the list that names the identity. */
  ghost predicate LastFor(list: seq<Ace>, id: Id, k: int) {
    && 0 <= k < |list| && IdOf(list[k].tag, list[k].qual) == id
    && forall j :: k < j < |list| ==> IdOf(list[j].tag, list[j].qual) != id
  }

  /** The last entry for the identity gave or took its permissions; with no entry for it they are what they were. */
  ghost predicate Updated(list: seq<Ace>, remove: bool, id: Id, before: Option<Perms>, after: Option<Perms>) {
    && (forall k :: LastFor(list, id, k) ==> after == if remove then None else list[k].perms)
    && ((forall k :: 0 <= k < |list| ==> IdOf(list[k].tag, list[k].qual) != id) ==> after == before)
  }

  lemma {:induction false} OverrideUpdates(list: seq<Ace>, remove: bool, id: Id, start: Option<Perms>)
    ensures Updated(list, remove, id, start, Override(list, remove, id, start))
  {
    hide IdOf;
    if list != [] {
      var n := |list| - 1;
      OverrideUpdates(list[..n], remove, id, start);
      forall k | LastFor(list, id, k)
        ensures Override(list, remove, id, start) == if remove then None else list[k].perms
      {
        if k < n { assert LastFor(list[..n], id, k); }
      }
    }
  }

  /** The list was applied to every identity; but the mask may have been calculated instead. */
  ghost predicate Applied(list: seq<Ace>, remove: bool, recalcMask: bool, acl: seq<AclEntry>, acl': seq<AclEntry>) {
    forall id: Id :: !id.tag.Mask? || !recalcMask ==> Updated(list, remove, id, PermsAt(acl, id), PermsAt(acl', id))
  }

  lemma OverrideApplies(list: seq<Ace>, remove: bool, recalcMask: bool, acl: seq<AclEntry>, acl': seq<AclEntry>)
    requires forall id: Id :: !id.tag.Mask? || !recalcMask ==>
               PermsAt(acl', id) == Override(list, remove, id, PermsAt(acl, id))
    ensures Applied(list, remove, recalcMask, acl, acl')
  {
    hide Updated, Override, PermsAt;
    forall id: Id | !id.tag.Mask? || !recalcMask
      ensures Updated(list, remove, id, PermsAt(acl, id), PermsAt(acl', id))
    {
      OverrideUpdates(list, remove, id, PermsAt(acl, id));
    }
  }

  lemma {:induction false} PermsAtNone(acl: seq<AclEntry>, id: Id)
    requires forall i :: 0 <= i < |acl| ==> IdOf(acl[i].tag, acl[i].qual) != id
    ensures PermsAt(acl, id) == None
  {
    if acl != [] { PermsAtNone(acl[1..], id); }
  }

  lemma {:induction false} PermsAtAppend(a: seq<AclEntry>, b: seq<AclEntry>, id: Id)
    ensures PermsAt(a + b, id) == if PermsAt(a, id).Some? then PermsAt(a, id) else PermsAt(b, id)
  {
    if a == [] {
      assert a + b == b;
    } else {
      assert (a + b)[1..] == a[1..] + b;
      PermsAtAppend(a[1..], b, id);
    }
  }

  /** Changing the permissions of one entry changes them for its identity only. */
  lemma SetOne(acl: seq<AclEntry>, i: nat, p: Perms, id: Id)
    requires Unique(acl) && i < |acl|
    ensures Unique(acl[i := acl[i].(perms := p)])
    ensures PermsAt(acl[i := acl[i].(perms := p)], id)
         == if id == IdOf(acl[i].tag, acl[i].qual) then Some(p) else PermsAt(acl, id)
  {
    var e, e' := acl[i], acl[i].(perms := p);
    assert acl == acl[..i] + [e] + acl[i + 1..];
    assert acl[i := e'] == acl[..i] + [e'] + acl[i + 1..];
    PermsAtAppend(acl[..i] + [e], acl[i + 1..], id);
    PermsAtAppend(acl[..i] + [e'], acl[i + 1..], id);
    PermsAtAppend(acl[..i], [e], id);
    PermsAtAppend(acl[..i], [e'], id);
    if id == IdOf(e.tag, e.qual) { PermsAtNone(acl[..i], id); }
  }

  lemma DeleteOne(acl: seq<AclEntry>, i: nat, id: Id)
    requires Unique(acl) && i < |acl|
    ensures Unique(acl[..i] + acl[i + 1..])
    ensures PermsAt(acl[..i] + acl[i + 1..], id)
         == if id == IdOf(acl[i].tag, acl[i].qual) then None else PermsAt(acl, id)
  {
    var e := acl[i];
    assert acl == acl[..i] + [e] + acl[i + 1..];
    PermsAtAppend(acl[..i] + [e], acl[i + 1..], id);
    PermsAtAppend(acl[..i], [e], id);
    PermsAtAppend(acl[..i], acl[i + 1..], id);
    if id == IdOf(e.tag, e.qual) {
      PermsAtNone(acl[..i], id);
      PermsAtNone(acl[i + 1..], id);
    }
  }

  lemma CreateOne(acl: seq<AclEntry>, e: AclEntry, id: Id)
    requires Unique(acl) && forall i :: 0 <= i < |acl| ==> IdOf(acl[i].tag, acl[i].qual) != IdOf(e.tag, e.qual)
    ensures Unique(acl + [e])
    ensures PermsAt(acl + [e], id) == if id == IdOf(e.tag, e.qual) then Some(e.perms) else PermsAt(acl, id)
  {
    PermsAtAppend(acl, [e], id);
    if id == IdOf(e.tag, e.qual) { PermsAtNone(acl, id); }
  }

  // ---- the mask -----------------------------------------------------------------------------

  /** The entries that the mask limits. */
  predicate GroupClass(tag: Tag) {
    tag.User? || tag.Group? || tag.GroupObj?
  }

  /** The identity is limited by the mask and has these permissions. */
  ghost predicate Granted(acl: seq<AclEntry>, id: Id, p: Perms) {
    (id.tag.User? || id.tag.Group? || id.tag.GroupObj?) && PermsAt(acl, id) == Some(p)
  }

  /** What acl_calc_mask is documented to compute: the union of what the named users and all groups are granted. */
  ghost predicate IsMask(acl: seq<AclEntry>, m: Perms) {
    && (m.r <==> exists id, p :: Granted(acl, id, p) && p.r)
    && (m.w <==> exists id, p :: Granted(acl, id, p) && p.w)
    && (m.x <==> exists id, p :: Granted(acl, id, p) && p.x)
  }

  lemma {:induction false} PermsAtEntry(acl: seq<AclEntry>, i: nat)
    requires Unique(acl) && i < |acl|
    ensures PermsAt(acl, IdOf(acl[i].tag, acl[i].qual)) == Some(acl[i].perms)
  {
    if i > 0 { PermsAtEntry(acl[1..], i - 1); }
  }

  lemma {:induction false} EntryOf(acl: seq<AclEntry>, id: Id) returns (i: nat)
    requires PermsAt(acl, id).Some?
    ensures i < |acl| && IdOf(acl[i].tag, acl[i].qual) == id && PermsAt(acl, id) == Some(acl[i].perms)
  {
    if IdOf(acl[0].tag, acl[0].qual) == id {
      i := 0;
    } else {
      var k := EntryOf(acl[1..], id);
      i := k + 1;
    }
  }

  /** An entry adds its permissions to the union, if it is in the group class. */
  lemma GrantedMore(acl: seq<AclEntry>, e: AclEntry)
    requires Unique(acl + [e])
    ensures forall id, p :: Granted(acl + [e], id, p) <==>
              Granted(acl, id, p) || (GroupClass(e.tag) && id == IdOf(e.tag, e.qual) && p == e.perms)
  {
    forall id, p
      ensures Granted(acl + [e], id, p) <==>
                Granted(acl, id, p) || (GroupClass(e.tag) && id == IdOf(e.tag, e.qual) && p == e.perms)
    {
      PermsAtAppend(acl, [e], id);
      if PermsAt(acl, id).Some? {
        var i := EntryOf(acl, id);
        assert (acl + [e])[i] == acl[i] && (acl + [e])[|acl|] == e;
      }
    }
  }

  function Union(m: Perms, p: Perms): Perms {
    Perms(m.r || p.r, m.w || p.w, m.x || p.x)
  }

  lemma MaskMore(acl: seq<AclEntry>, e: AclEntry, m: Perms)
    requires Unique(acl + [e]) && IsMask(acl, m)
    ensures IsMask(acl + [e], if GroupClass(e.tag) then Union(m, e.perms) else m)
  {
    GrantedMore(acl, e);
    hide Granted;
    if GroupClass(e.tag) { assert Granted(acl + [e], IdOf(e.tag, e.qual), e.perms); }
  }

  /** The mask entry itself is not in the group class. */
  lemma MaskStays(acl: seq<AclEntry>, acl': seq<AclEntry>, m: Perms)
    requires IsMask(acl, m) && forall id: Id :: !id.tag.Mask? ==> PermsAt(acl', id) == PermsAt(acl, id)
    ensures IsMask(acl', m)
  {
    assert forall id, p :: Granted(acl', id, p) <==> Granted(acl, id, p);
  }

  class Acl {
    var entries: seq<AclEntry>

    /** A qualifier matters only for named users and groups. */
    method FindEntry(tag: Tag, qual: nat) returns (i: int)
      ensures -1 <= i < |entries|
      ensures i >= 0 ==> entries[i].tag == tag && (tag.User? || tag.Group? ==> entries[i].qual == qual)
      ensures i < 0 ==> forall k :: 0 <= k < |entries| ==>
                entries[k].tag != tag || ((tag.User? || tag.Group?) && entries[k].qual != qual)
      ensures i >= 0 ==> IdOf(entries[i].tag, entries[i].qual) == IdOf(tag, qual)
      ensures i < 0 ==> forall k :: 0 <= k < |entries| ==> IdOf(entries[k].tag, entries[k].qual) != IdOf(tag, qual)
    {
      i := 0;
      while i < |entries|
        invariant 0 <= i <= |entries|
        invariant forall k :: 0 <= k < i ==> IdOf(entries[k].tag, entries[k].qual) != IdOf(tag, qual)
      {
        if entries[i].tag == tag {
          if tag.User? || tag.Group? {
            if entries[i].qual == qual { return; }
          } else {
            return;
          }
        }
        i := i + 1;
      }
      i := -1;
    }

    /** Gives the identity these permissions, in its entry or in a new one. */
    method SetEntry(tag: Tag, qual: nat, perms: Perms)
      requires Unique(entries)
      modifies this
      ensures Unique(entries)
      ensures forall id :: PermsAt(entries, id) ==
                if id == IdOf(tag, qual) then Some(perms) else PermsAt(old(entries), id)
    {
      var i := FindEntry(tag, qual);
      if i < 0 {
        var e := AclEntry(tag, if tag.User? || tag.Group? then qual else 0, perms);
        forall id { CreateOne(entries, e, id); }
        entries := entries + [e];
      } else {
        forall id { SetOne(entries, i, perms, id); }
        entries := entries[i := entries[i].(perms := perms)];
      }
    }

    method RemoveEntry(tag: Tag, qual: nat)
      requires Unique(entries)
      modifies this
      ensures Unique(entries)
      ensures forall id :: PermsAt(entries, id) == if id == IdOf(tag, qual) then None else PermsAt(old(entries), id)
    {
      var i := FindEntry(tag, qual);
      if i >= 0 {
        var rest := entries[..i] + entries[i + 1..];
        forall id
          ensures PermsAt(rest, id) == if id == IdOf(tag, qual) then None else PermsAt(entries, id)
        {
          DeleteOne(entries, i, id);
        }
        entries := rest;
      } else {
        PermsAtNone(entries, IdOf(tag, qual));
      }
    }

    method CalcMask() returns (m: Perms)
      requires Unique(entries)
      ensures IsMask(entries, m)
    {
      m := NO_PERMS;
      var i := 0;
      while i < |entries|
        invariant 0 <= i <= |entries| && IsMask(entries[..i], m)
      {
        hide IsMask;
        assert entries[..i + 1] == entries[..i] + [entries[i]];
        MaskMore(entries[..i], entries[i], m);
        if GroupClass(entries[i].tag) { m := Union(m, entries[i].perms); }
        i := i + 1;
      }
      assert entries[..i] == entries;
    }

    /** One entry of the list, and the recalculation of the mask. */
    method ApplyOne(a: Ace, remove: bool, recalcMask: bool)
      requires Unique(entries) && (!remove ==> a.perms.Some?)
      modifies this
      ensures Unique(entries)
      ensures forall id: Id :: !id.tag.Mask? || !recalcMask ==>
                PermsAt(entries, id) == if id == IdOf(a.tag, a.qual) then (if remove then None else a.perms)
                                        else PermsAt(old(entries), id)
      ensures recalcMask ==> exists m :: PermsAt(entries, Id(Mask, 0)) == Some(m) && IsMask(entries, m)
    {
      hide IsMask;
      if remove {
        RemoveEntry(a.tag, a.qual);
      } else {
        SetEntry(a.tag, a.qual, a.perms.value);
      }
      if recalcMask {
        var m := CalcMask();
        ghost var before := entries;
        SetEntry(Mask, 0, m);
        MaskStays(before, entries, m);
      }
    }

    /** The loop over aclist for one file; valid is acl_valid, whose failure ends the program after done entries.
        written are the lists given to acl_set_file, one after each entry. */
    method Apply(list: seq<Ace>, remove: bool, recalcMask: bool, valid: seq<AclEntry> -> bool)
      returns (done: nat, written: seq<seq<AclEntry>>)
      requires Unique(entries) && (!remove ==> forall i :: 0 <= i < |list| ==> list[i].perms.Some?)
      modifies this
      ensures Unique(entries) && done <= |list|
      ensures done < |list| ==> !valid(entries)
      ensures |written| == done && forall k :: 0 <= k < done ==>
                valid(written[k]) && Applied(list[..k + 1], remove, recalcMask, old(entries), written[k])
      ensures 0 < done == |list| ==> written[done - 1] == entries
      ensures Applied(if done == |list| then list else list[..done + 1], remove, recalcMask, old(entries), entries)
      ensures recalcMask && list != [] ==> exists m :: PermsAt(entries, Id(Mask, 0)) == Some(m) && IsMask(entries, m)
      ensures list == [] ==> entries == old(entries)
    {
      hide IsMask, Unique, PermsAt, IdOf, Applied;
      done, written := 0, [];
      while done < |list|
        invariant 0 <= done <= |list| && Unique(entries) && |written| == done
        invariant forall k :: 0 <= k < done ==>
                    valid(written[k]) && Applied(list[..k + 1], remove, recalcMask, old(entries), written[k])
        invariant done > 0 ==> written[done - 1] == entries
        invariant done == 0 ==> entries == old(entries)
        invariant forall id: Id :: !id.tag.Mask? || !recalcMask ==>
                    PermsAt(entries, id) == Override(list[..done], remove, id, PermsAt(old(entries), id))
        invariant recalcMask && done > 0 ==> exists m :: PermsAt(entries, Id(Mask, 0)) == Some(m) && IsMask(entries, m)
      {
        var a := list[done];
        assert list[..done + 1][..done] == list[..done];
        ApplyOne(a, remove, recalcMask);
        OverrideApplies(list[..done + 1], remove, recalcMask, old(entries), entries);
        if !valid(entries) { return; }
        written := written + [entries];
        done := done + 1;
      }
      assert list[..done] == list;
      OverrideApplies(list, remove, recalcMask, old(entries), entries);
    }
  }
}
