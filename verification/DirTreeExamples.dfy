/** One small tree for each of the renames that break the agreement. */
module DirTreeExamples {
  import opened Options
  import opened DirTreePaths
  import opened DirTreeState
  import opened DirTreeSync
  import opened DirTreeRuns
  import opened DirTreeMoves
  import opened DirTreeBreaks
  import opened DirTreeTheorems
  import opened DirTreeUnpaired
  import opened DirTreeRename
  import opened DirTreeQueued

  function Before(listing: seq<Path>, roots: seq<Option<Path>>): State {
    State(map[], roots, Kernel(listing, map[], 1), true)
  }

  /** The program started on these directories and roots. */
  function Start(listing: seq<Path>, roots: seq<Option<Path>>): State {
    Reinitialize(Before(listing, roots))
  }

  /** Where no path has more than two components, a tree is closed when it has the tops of its paths. */
  ghost predicate Shallow(listing: seq<Path>) {
    forall i :: 0 <= i < |listing| ==> 1 <= |listing[i]| <= 2 && Components(listing[i]) && [listing[i][0]] in listing
  }

  lemma StartSyncs(listing: seq<Path>, roots: seq<Option<Path>>)
    requires Shallow(listing) && RootsApart(Before(listing, roots))
    ensures var s := Start(listing, roots); Synced(s) && s.kernel.listing == listing && s.roots == roots
  {
    var s0 := Before(listing, roots);
    assert Closed(s0) by {
      forall p, q | Above(q, p) && Exists(s0, p)
        ensures Exists(s0, q)
      {
        if |q| == 1 { assert q == [p[0]]; } else { assert q == p; }
      }
    }
    hide Closed, RootsApart, Reinitialize, Synced;
    RebuildSyncs(s0);
    ReinitializeSyncs(s0);
  }

  /** With root r holding the empty directory r/d, the unmonitored directory x is renamed to r/d. The cache then
      has no entry for r/d. */
  lemma MoveOntoExample()
    ensures var s := Start([["r"], ["r", "d"], ["x"]], [Some(["r"])]);
      var x := Step(Rename(["x"], ["r", "d"]), [["r"], ["r", "d"]], 7);
      && Synced(s) && Possible(s, x)
      && Handled(s, x).running && Missed(Handled(s, x), ["r", "d"])
  {
    StartSyncs([["r"], ["r", "d"], ["x"]], [Some(["r"])]);
    hide Start, Synced, Legal, Possible, Missed, HandleAll;
    OntoBreaksAt(Start([["r"], ["r", "d"], ["x"]], [Some(["r"])]));
  }

  lemma OntoIsLegal(s: State)
    requires s.kernel.listing == [["r"], ["r", "d"], ["x"]] && s.roots == [Some(["r"])]
    ensures Legal(s, Rename(["x"], ["r", "d"]), [["r"], ["r", "d"]])
    ensures Monitored(s, Parent(["r", "d"])) && !Monitored(s, ["x"]) && Exists(s, ["r", "d"])
    ensures forall r :: IsRoot(s, r) && ["x"] <= r ==> r == ["x"]
  {
    assert Parent(["r", "d"]) == ["r"];
    assert IsRoot(s, ["r"]) && ["r"] <= ["r"];
    forall q
      ensures q in [["r"], ["r", "d"]] <==> ExistsAfter(s, Rename(["x"], ["r", "d"]), q)
    {
      if ["r", "d"] <= q {
        var p := ["x"] + q[2..];
        assert q == ["r", "d"] + q[2..];
        assert p[0] == "x";
        if Exists(s, p) { assert |p| == 1; }
        if q == ["r", "d"] { assert p == ["x"]; }
      } else if q == ["x"] {
        assert ["x"] <= q;
      }
    }
  }

  lemma OntoBreaksAt(s: State)
    requires Synced(s) && s.kernel.listing == [["r"], ["r", "d"], ["x"]] && s.roots == [Some(["r"])]
    ensures var x := Step(Rename(["x"], ["r", "d"]), [["r"], ["r", "d"]], 7);
      Possible(s, x) && Handled(s, x).running && Missed(Handled(s, x), ["r", "d"])
  {
    hide Synced, Legal, Missed, HandleAll, Monitored, Outcome, EventsOf, AgreesIff;
    OntoIsLegal(s);
    OntoBreaks(s, ["x"], ["r", "d"], [["r"], ["r", "d"]], 7);
    ChangeKeepsSync(s, Step(Rename(["x"], ["r", "d"]), [["r"], ["r", "d"]], 7));
  }

  /** The directory a above the root a/r is renamed to b. The cache still names a/r, which is gone. */
  lemma AboveRootExample()
    ensures var s := Start([["a"], ["a", "r"]], [Some(["a", "r"])]);
      var x := Step(Rename(["a"], ["b"]), [["b"], ["b", "r"]], 7);
      && Synced(s) && Possible(s, x)
      && Handled(s, x).running && Stale(Handled(s, x), ["a", "r"])
  {
    StartSyncs([["a"], ["a", "r"]], [Some(["a", "r"])]);
    hide Start, Synced, Legal, Possible, Stale, HandleAll;
    AboveBreaksAt(Start([["a"], ["a", "r"]], [Some(["a", "r"])]));
  }

  lemma AboveIsLegal(s: State)
    requires s.kernel.listing == [["a"], ["a", "r"]]
    ensures Legal(s, Rename(["a"], ["b"]), [["b"], ["b", "r"]])
  {
    forall q
      ensures q in [["b"], ["b", "r"]] <==> ExistsAfter(s, Rename(["a"], ["b"]), q)
    {
      if ["b"] <= q {
        var p := ["a"] + q[1..];
        assert q == ["b"] + q[1..];
        assert q[1..] == p[1..];
        if q == ["b"] { assert p == ["a"]; }
        if q == ["b", "r"] { assert p == ["a", "r"]; }
        if p == ["a"] { assert q == ["b"]; }
        if p == ["a", "r"] { assert q == ["b"] + ["r"]; }
      }
    }
  }

  lemma AboveBreaksAt(s: State)
    requires Synced(s) && s.kernel.listing == [["a"], ["a", "r"]] && s.roots == [Some(["a", "r"])]
    ensures var x := Step(Rename(["a"], ["b"]), [["b"], ["b", "r"]], 7);
      Possible(s, x) && Handled(s, x).running && Stale(Handled(s, x), ["a", "r"])
  {
    hide Synced, Legal, Stale, HandleAll, Monitored, Outcome, EventsOf, AgreesIff;
    AboveIsLegal(s);
    assert IsRoot(s, ["a", "r"]) && ["a"] <= ["a", "r"];
    AboveRootBreaks(s, ["a"], ["b"], [["b"], ["b", "r"]], 7, ["a", "r"]);
    ChangeKeepsSync(s, Step(Rename(["a"], ["b"]), [["b"], ["b", "r"]], 7));
  }

  /** Of the two roots r and q, q is renamed to r/q. The cache then has no entry for r/q. */
  lemma RootIntoTreeExample()
    ensures var s := Start([["r"], ["q"]], [Some(["r"]), Some(["q"])]);
      var x := Step(Rename(["q"], ["r", "q"]), [["r"], ["r", "q"]], 7);
      && Synced(s) && Possible(s, x)
      && Handled(s, x).running && Missed(Handled(s, x), ["r", "q"])
  {
    StartSyncs([["r"], ["q"]], [Some(["r"]), Some(["q"])]);
    hide Start, Synced, Legal, Possible, Missed, HandleAll;
    IntoBreaksAt(Start([["r"], ["q"]], [Some(["r"]), Some(["q"])]));
  }

  lemma IntoIsLegal(s: State)
    requires s.kernel.listing == [["r"], ["q"]] && s.roots == [Some(["r"]), Some(["q"])]
    ensures Legal(s, Rename(["q"], ["r", "q"]), [["r"], ["r", "q"]])
    ensures Monitored(s, Parent(["r", "q"])) && IsRoot(s, ["q"])
    ensures forall r :: IsRoot(s, r) && ["q"] <= r ==> r == ["q"]
  {
    assert s.roots[1] == Some(["q"]);
    assert Parent(["r", "q"]) == ["r"];
    assert s.roots[0] == Some(["r"]);
    assert IsRoot(s, ["r"]) && ["r"] <= ["r"];
    assert ["q"][0] != ["r", "q"][0] && s.kernel.listing[1] == ["q"];
    forall q
      ensures q in [["r"], ["r", "q"]] <==> ExistsAfter(s, Rename(["q"], ["r", "q"]), q)
    {
      if ["r", "q"] <= q {
        var p := ["q"] + q[2..];
        assert q == ["r", "q"] + q[2..];
        assert p[0] == "q";
        if Exists(s, p) { assert |p| == 1; }
        if q == ["r", "q"] { assert p == ["q"]; }
      } else if q == ["q"] {
        assert ["q"] <= q;
      }
    }
  }

  lemma IntoBreaksAt(s: State)
    requires Synced(s) && s.kernel.listing == [["r"], ["q"]] && s.roots == [Some(["r"]), Some(["q"])]
    ensures var x := Step(Rename(["q"], ["r", "q"]), [["r"], ["r", "q"]], 7);
      Possible(s, x) && Handled(s, x).running && Missed(Handled(s, x), ["r", "q"])
  {
    hide Synced, Legal, Missed, HandleAll, Monitored, Outcome, EventsOf, AgreesIff;
    IntoIsLegal(s);
    RootIntoTreeBreaks(s, ["q"], ["r", "q"], [["r"], ["r", "q"]], 7);
    ChangeKeepsSync(s, Step(Rename(["q"], ["r", "q"]), [["r"], ["r", "q"]], 7));
  }

  /** Below root r, r/a is renamed to the empty r/b. Handled as a pair the cache names r/b; handled as two separate
      events it does not. */
  lemma UnpairedExample()
    ensures var s := Start([["r"], ["r", "a"], ["r", "b"]], [Some(["r"])]);
      var a, b, listing := ["r", "a"], ["r", "b"], [["r"], ["r", "b"]];
      && Synced(s) && Legal(s, Rename(a, b), listing)
      && Linked(s) && Parent(a) in s.kernel.watch && Parent(b) in s.kernel.watch && Plain("a") && Plain("b")
      && AllWellFormed(EventsOf(s, Rename(a, b), 7))
      && b in Result(s, a, b, listing, 7).view.Values && b !in Separately(s, a, b, listing, 7).view.Values
  {
    StartSyncs([["r"], ["r", "a"], ["r", "b"]], [Some(["r"])]);
    hide Start, Legal, Separately, Result, HandleAll, EventsOf;
    UnpairedAt(Start([["r"], ["r", "a"], ["r", "b"]], [Some(["r"])]));
  }

  lemma WithinIsLegal(s: State)
    requires s.kernel.listing == [["r"], ["r", "a"], ["r", "b"]] && s.roots == [Some(["r"])]
    ensures Legal(s, Rename(["r", "a"], ["r", "b"]), [["r"], ["r", "b"]])
    ensures Monitored(s, Parent(["r", "b"])) && Monitored(s, ["r", "a"]) && !IsRoot(s, ["r", "a"])
    ensures Exists(s, ["r", "b"]) && forall r :: IsRoot(s, r) && ["r", "a"] <= r ==> r == ["r", "a"]
  {
    assert Parent(["r", "b"]) == ["r"];
    assert IsRoot(s, ["r"]) && ["r"] <= ["r"] && ["r"] <= ["r", "a"];
    forall q
      ensures q in [["r"], ["r", "b"]] <==> ExistsAfter(s, Rename(["r", "a"], ["r", "b"]), q)
    {
      if ["r", "b"] <= q {
        var p := ["r", "a"] + q[2..];
        assert q == ["r", "b"] + q[2..];
        assert p[1] == "a";
        if Exists(s, p) { assert |p| == 2; }
        if q == ["r", "b"] { assert p == ["r", "a"]; }
      } else if q == ["r", "a"] {
        assert ["r", "a"] <= q;
      }
    }
  }

  lemma UnpairedAt(s: State)
    requires Synced(s) && s.kernel.listing == [["r"], ["r", "a"], ["r", "b"]] && s.roots == [Some(["r"])]
    ensures var a, b, listing := ["r", "a"], ["r", "b"], [["r"], ["r", "b"]];
      && Legal(s, Rename(a, b), listing)
      && Linked(s) && Parent(a) in s.kernel.watch && Parent(b) in s.kernel.watch && Plain("a") && Plain("b")
      && AllWellFormed(EventsOf(s, Rename(a, b), 7))
      && b in Result(s, a, b, listing, 7).view.Values && b !in Separately(s, a, b, listing, 7).view.Values
  {
    var a, b, listing := ["r", "a"], ["r", "b"], [["r"], ["r", "b"]];
    hide Closed, RootsApart, Covered, Linked, Legal, HandleAll, Result, Separately, Monitored, EventsOf;
    WithinIsLegal(s);
    SamePathsIff(s, a, b, listing, 7);
    PairedFinds(s, a, b, listing, 7);
    SeparateLoses(s, a, b, listing, 7);
  }

  /** From root r, r/a leaves as b with cookie 7 and x then enters as r/b with cookie 8, before an event is read. The
      two events stand side by side in the stream, and the cache is right afterwards. */
  lemma OutThenInExample() returns (u: State)
    ensures var s := Start([["r"], ["r", "a"], ["x"]], [Some(["r"])]);
      var out := Step(Rename(["r", "a"], ["b"]), [["r"], ["x"], ["b"]], 7);
      var into := Step(Rename(["x"], ["r", "b"]), [["r"], ["b"], ["r", "b"]], 8);
      Synced(s) && Together(s, [out, into], u) && Synced(u)
  {
    StartSyncs([["r"], ["r", "a"], ["x"]], [Some(["r"])]);
    hide Start, Synced, Together;
    u := OutThenInAt(Start([["r"], ["r", "a"], ["x"]], [Some(["r"])]));
  }

  lemma OutIsLegal(s: State)
    requires s.kernel.listing == [["r"], ["r", "a"], ["x"]] && s.roots == [Some(["r"])]
    ensures Legal(s, Rename(["r", "a"], ["b"]), [["r"], ["x"], ["b"]])
    ensures Monitored(s, ["r", "a"]) && !IsRoot(s, ["r", "a"]) && !Monitored(s, Parent(["b"]))
    ensures forall r :: IsRoot(s, r) && ["r", "a"] <= r ==> r == ["r", "a"]
  {
    assert IsRoot(s, ["r"]) && ["r"] <= ["r", "a"];
    assert s.kernel.listing[1] == ["r", "a"];
    forall q
      ensures q in [["r"], ["x"], ["b"]] <==> ExistsAfter(s, Rename(["r", "a"], ["b"]), q)
    {
      if ["b"] <= q {
        var p := ["r", "a"] + q[1..];
        assert q == ["b"] + q[1..];
        assert p[1] == "a";
        if Exists(s, p) { assert |p| == 2; }
        if q == ["b"] { assert p == ["r", "a"]; }
      } else if q == ["r", "a"] {
        assert ["r", "a"] <= q;
      } else if q == ["x"] {
        assert s.kernel.listing[2] == ["x"];
      }
    }
  }

  lemma IntoNewIsLegal(t: State)
    requires t.kernel.listing == [["r"], ["x"], ["b"]] && t.roots == [Some(["r"])]
    ensures Legal(t, Rename(["x"], ["r", "b"]), [["r"], ["b"], ["r", "b"]])
    ensures !Monitored(t, ["x"]) && Monitored(t, Parent(["r", "b"])) && !Exists(t, ["r", "b"])
    ensures forall r :: IsRoot(t, r) ==> !(["x"] <= r)
  {
    assert Parent(["r", "b"]) == ["r"];
    assert IsRoot(t, ["r"]) && ["r"] <= ["r"];
    assert t.kernel.listing[1] == ["x"] && ["x"][0] != ["r", "b"][0];
    forall q
      ensures q in [["r"], ["b"], ["r", "b"]] <==> ExistsAfter(t, Rename(["x"], ["r", "b"]), q)
    {
      if ["r", "b"] <= q {
        var p := ["x"] + q[2..];
        assert q == ["r", "b"] + q[2..];
        assert p[0] == "x";
        if Exists(t, p) { assert |p| == 1; }
        if q == ["r", "b"] { assert p == ["x"]; }
      } else if q == ["x"] {
        assert ["x"] <= q;
      } else if q == ["b"] {
        assert t.kernel.listing[2] == ["b"];
      }
    }
  }

  lemma OutThenInAt(s: State) returns (u: State)
    requires Synced(s) && s.kernel.listing == [["r"], ["r", "a"], ["x"]] && s.roots == [Some(["r"])]
    ensures var out := Step(Rename(["r", "a"], ["b"]), [["r"], ["x"], ["b"]], 7);
      var into := Step(Rename(["x"], ["r", "b"]), [["r"], ["b"], ["r", "b"]], 8);
      Together(s, [out, into], u) && Synced(u)
  {
    var a, b, listing := ["r", "a"], ["b"], [["r"], ["x"], ["b"]];
    var into := Step(Rename(["x"], ["r", "b"]), [["r"], ["b"], ["r", "b"]], 8);
    hide Synced, Legal, Monitored, Result, EventsOf, HandleAll, Together;
    OutIsLegal(s);
    RenameOut(s, a, b, listing, 7);
    var t := Result(s, a, b, listing, 7);
    NothingRemoved(s, {a, b});
    IntoNewIsLegal(t);
    ChangeKeepsSync(t, into);
    assert ["b"][0] != ["r", "b"][0];
    u := OutThenIn(s, a, b, listing, 7, into, t);
  }
}
