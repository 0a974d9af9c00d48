/** The environment list as text, and what setting and unsetting a variable mean for lookups. */
module Environment {
  import opened Options

  /** The C test: the bytes of name, then '='. */
  predicate Matches(e: string, name: string) {
    |name| < |e| && e[..|name|] == name && e[|name|] == '='
  }

  /** The text before the first '=', if there is one. */
  function NameOf(e: string): Option<string> {
    if e == "" then None
    else if e[0] == '=' then Some("")
    else match NameOf(e[1..])
      case None => None
      case Some(s) => Some([e[0]] + s)
  }

  /** For a name without '=', the byte test finds exactly the entries that define it. */
  lemma {:induction false} MatchIsDefinition(e: string, name: string)
    requires '=' !in name
    ensures Matches(e, name) <==> NameOf(e) == Some(name)
  {
    if e != "" && e[0] != '=' {
      if name == "" {
        assert NameOf(e) != Some("");
      } else {
        MatchIsDefinition(e[1..], name[1..]);
        assert e == [e[0]] + e[1..] && name == [name[0]] + name[1..];
        if Matches(e, name) {
          assert e[1..][..|name| - 1] == e[..|name|][1..];
        }
        if e[0] == name[0] && Matches(e[1..], name[1..]) {
          assert e[..|name|] == [e[0]] + e[1..][..|name| - 1];
        }
      }
    }
  }

  /** getenv: the value in the first entry for the name. */
  function Lookup(env: seq<string>, name: string): Option<string> {
    if env == [] then None
    else if Matches(env[0], name) then Some(env[0][|name| + 1..])
    else Lookup(env[1..], name)
  }

  function Count(env: seq<string>, name: string): nat {
    if env == [] then 0 else (if Matches(env[0], name) then 1 else 0) + Count(env[1..], name)
  }

  /** The list without the entries for a name, otherwise in the same order. */
  function Without(env: seq<string>, name: string): seq<string> {
    if env == [] then []
    else if Matches(env[0], name) then Without(env[1..], name)
    else [env[0]] + Without(env[1..], name)
  }

  lemma {:induction false} WithoutAppend(a: seq<string>, b: seq<string>, name: string)
    ensures Without(a + b, name) == Without(a, name) + Without(b, name)
  {
    if a == [] {
      assert a + b == b;
    } else {
      assert (a + b)[1..] == a[1..] + b;
      WithoutAppend(a[1..], b, name);
    }
  }

  lemma {:induction false} LookupAppend(a: seq<string>, b: seq<string>, name: string)
    ensures Lookup(a + b, name) == if Lookup(a, name).Some? then Lookup(a, name) else Lookup(b, name)
    ensures Count(a + b, name) == Count(a, name) + Count(b, name)
    ensures Lookup(a, name).None? <==> Count(a, name) == 0
  {
    if a == [] {
      assert a + b == b;
    } else {
      assert (a + b)[1..] == a[1..] + b;
      LookupAppend(a[1..], b, name);
    }
  }

  /** Only the removed name loses its value. */
  lemma {:induction false} LookupWithout(env: seq<string>, name: string, n: string)
    requires '=' !in name && '=' !in n
    ensures Lookup(Without(env, name), n) == if n == name then None else Lookup(env, n)
  {
    if env != [] {
      LookupWithout(env[1..], name, n);
      MatchIsDefinition(env[0], name);
      MatchIsDefinition(env[0], n);
      if !Matches(env[0], name) {
        assert Without(env, name)[1..] == Without(env[1..], name);
      }
    }
  }

  /** Some entry defines the name. */
  ghost predicate Defined(env: seq<string>, name: string) {
    exists i :: 0 <= i < |env| && NameOf(env[i]) == Some(name)
  }

  /** env' holds the entries of env at these places, in order, and they are all that do not define the name. */
  ghost predicate KeptAt(env: seq<string>, env': seq<string>, name: string, places: seq<nat>) {
    && |places| == |env'|
    && (forall k :: 0 <= k < |places| ==> places[k] < |env| && env'[k] == env[places[k]])
    && (forall k, l :: 0 <= k < l < |places| ==> places[k] < places[l])
    && (forall i :: 0 <= i < |env| ==> (i in places <==> NameOf(env[i]) != Some(name)))
  }

  /** The definitions of the name are gone and every other entry is still there, in the same order. */
  ghost predicate Removed(env: seq<string>, env': seq<string>, name: string) {
    exists places :: KeptAt(env, env', name, places)
  }

  lemma {:induction false} WithoutKeeps(env: seq<string>, name: string) returns (places: seq<nat>)
    requires '=' !in name
    ensures KeptAt(env, Without(env, name), name, places)
    decreases |env|
  {
    if env == [] {
      places := [];
    } else {
      var n := |env| - 1;
      var before, last := env[..n], env[n];
      var kept := WithoutKeeps(before, name);
      assert env == before + [last];
      WithoutAppend(before, [last], name);
      MatchIsDefinition(last, name);
      assert Without([last], name) == if Matches(last, name) then [] else [last];
      hide Matches, NameOf, Without, KeptAt;
      KeptMore(before, Without(before, name), name, kept, last);
      assert Without(before, name) + [] == Without(before, name);
      places := if Matches(last, name) then kept else kept + [n];
    }
  }

  lemma KeptMore(env: seq<string>, env': seq<string>, name: string, places: seq<nat>, e: string)
    requires KeptAt(env, env', name, places)
    ensures NameOf(e) == Some(name) ==> KeptAt(env + [e], env', name, places)
    ensures NameOf(e) != Some(name) ==> KeptAt(env + [e], env' + [e], name, places + [|env|])
  {
    hide NameOf;
    assert |env| !in places;
  }

  lemma WithoutIsRemoved(env: seq<string>, name: string)
    requires '=' !in name
    ensures Removed(env, Without(env, name), name)
  {
    var places := WithoutKeeps(env, name);
  }

  lemma {:induction false} LookupDefined(env: seq<string>, name: string)
    requires '=' !in name
    ensures Lookup(env, name).Some? <==> Defined(env, name)
  {
    if env != [] {
      MatchIsDefinition(env[0], name);
      LookupDefined(env[1..], name);
      if Defined(env[1..], name) {
        var i :| 0 <= i < |env[1..]| && NameOf(env[1..][i]) == Some(name);
        assert env[i + 1] == env[1..][i];
      }
      if i :| 0 <= i < |env| && NameOf(env[i]) == Some(name) {
        if i > 0 { assert env[1..][i - 1] == env[i]; }
      }
    }
  }

  function Definition(name: string, value: string): string {
    name + "=" + value
  }

  lemma DefinitionMatches(name: string, value: string, n: string)
    requires '=' !in name && '=' !in n
    ensures Matches(Definition(name, value), n) <==> n == name
    ensures Definition(name, value)[|name| + 1..] == value
  {
    var e := Definition(name, value);
    assert e[..|name|] == name && e[|name|] == '=';
    MatchIsDefinition(e, name);
    MatchIsDefinition(e, n);
  }

  /** Setting a variable is a map update: one definition of the name, with the new value, and every other
      lookup as before. */
  lemma SetIsMapUpdate(env: seq<string>, name: string, value: string, n: string)
    requires '=' !in name && '=' !in n
    ensures var env' := Without(env, name) + [Definition(name, value)];
      && Lookup(env', n) == (if n == name then Some(value) else Lookup(env, n))
      && Count(env', name) == 1
  {
    var e, rest := Definition(name, value), Without(env, name);
    DefinitionMatches(name, value, n);
    DefinitionMatches(name, value, name);
    LookupWithout(env, name, n);
    LookupWithout(env, name, name);
    LookupAppend(rest, [e], n);
    LookupAppend(rest, [e], name);
  }

  /** A pointer of the environ array. */
  datatype Ptr = Null | Str(text: string)

  class Process {
    var environ: array<Ptr>
    /** The strings before the terminating null pointer. */
    ghost var env: seq<string>

    ghost predicate Valid()
      reads this, environ
    {
      && |env| < environ.Length
      && (forall i :: 0 <= i < |env| ==> environ[i] == Str(env[i]))
      && environ[|env|] == Null
    }

    constructor (es: seq<string>)
      ensures Valid() && env == es && fresh(environ)
    {
      environ := new Ptr[|es| + 1](i requires 0 <= i <= |es| => if i < |es| then Str(es[i]) else Null);
      env := es;
    }

    method Getenv(name: string) returns (value: Option<string>)
      requires Valid()
      ensures value == Lookup(env, name)
    {
      var i := 0;
      while environ[i] != Null
        invariant 0 <= i <= |env| && Lookup(env[i..], name) == Lookup(env, name)
        decreases |env| - i
      {
        var e := environ[i].text;
        assert env[i..][0] == e && env[i..][1..] == env[i + 1..];
        if Matches(e, name) { return Some(e[|name| + 1..]); }
        i := i + 1;
      }
      return None;
    }

    /** Shifts all later pointers, with the null pointer, back by one. */
    method RemoveAt(ep: nat)
      requires Valid() && ep < |env|
      modifies this`env, environ
      ensures Valid() && env == old(env)[..ep] + old(env)[ep + 1..]
    {
      ghost var es, n := env, |env|;
      var sp := ep;
      while environ[sp] != Null
        invariant ep <= sp <= n
        invariant forall k :: 0 <= k < ep ==> environ[k] == Str(es[k])
        invariant forall k :: ep <= k < sp ==> environ[k] == if k + 1 < n then Str(es[k + 1]) else Null
        invariant forall k :: sp <= k < n ==> environ[k] == Str(es[k])
        invariant environ[n] == Null && env == es
        decreases n - sp
      {
        environ[sp] := environ[sp + 1];
        sp := sp + 1;
      }
      env := env[..ep] + env[ep + 1..];
    }

    method Unsetenv(name: Option<string>) returns (ret: int)
      requires Valid()
      modifies this`env, environ
      ensures Valid()
      ensures if Usable(name) then ret == 0 && env == Without(old(env), name.value) else ret == -1 && env == old(env)
      ensures if name.None? || name.value == "" || '=' in name.value then ret == -1 && env == old(env)
              else ret == 0 && Removed(old(env), env, name.value)
    {
      hide Removed;
      if name.Some? && '=' !in name.value { WithoutIsRemoved(env, name.value); }
      if !Usable(name) { return -1; }
      var ep := 0;
      while environ[ep] != Null
        invariant Valid() && 0 <= ep <= |env|
        invariant Without(env, name.value) == Without(old(env), name.value)
        invariant Without(env[..ep], name.value) == env[..ep]
        decreases |env| - ep
      {
        var e := environ[ep].text;
        WithoutOne(env, ep, name.value);
        if Matches(e, name.value) { RemoveAt(ep); } else { ep := ep + 1; }
      }
      assert env[..ep] == env;
      ret := 0;
    }

    /** putenv: replaces the first definition of the name, or adds one in a larger array. */
    method Putenv(name: string, value: string)
      requires Valid()
      modifies this, environ
      ensures Valid() && (environ == old(environ) || fresh(environ))
      ensures Lookup(old(env), name).None? ==> env == old(env) + [Definition(name, value)]
      ensures Lookup(old(env), name).Some? ==>
                exists i :: 0 <= i < |old(env)| && Matches(old(env)[i], name) && Lookup(old(env)[..i], name).None?
                            && env == old(env)[i := Definition(name, value)]
    {
      var e, i := Definition(name, value), 0;
      while environ[i] != Null
        invariant 0 <= i <= |env| && Lookup(env[i..], name) == Lookup(env, name) && Lookup(env[..i], name).None?
        invariant Valid() && env == old(env) && environ == old(environ)
        decreases |env| - i
      {
        assert env[i..][0] == environ[i].text && env[i..][1..] == env[i + 1..];
        if Matches(environ[i].text, name) {
          environ[i] := Str(e);
          env := env[i := e];
          return;
        }
        assert env[..i + 1] == env[..i] + [env[i]];
        LookupAppend(env[..i], [env[i]], name);
        i := i + 1;
      }
      var a := environ;
      environ := new Ptr[i + 2](k requires 0 <= k < i + 2 reads a =>
        if k < i && k < a.Length then a[k] else if k == i then Str(e) else Null);
      env := env + [e];
    }

    /** mallocOk and putenvOk say whether those library calls succeed. */
    method Setenv(name: Option<string>, value: Option<string>, overwrite: int, mallocOk: bool, putenvOk: bool)
      returns (ret: int)
      requires Valid()
      modifies this, environ
      ensures Valid()
      ensures if name.None? || name.value == "" || '=' in name.value || value.None? then ret == -1 && env == old(env)
              else if overwrite == 0 && Defined(old(env), name.value) then ret == 0 && env == old(env)
              else if mallocOk && putenvOk then
                && ret == 0 && env != [] && env[|env| - 1] == name.value + "=" + value.value
                && env[..|env| - 1] == Without(old(env), name.value)
                && Removed(old(env), env[..|env| - 1], name.value)
              else ret == -1 && env == Without(old(env), name.value) && Removed(old(env), env, name.value)
    {
      hide Removed, Defined;
      if name.Some? && '=' !in name.value {
        WithoutIsRemoved(env, name.value);
        LookupDefined(env, name.value);
      }
      if !Usable(name) || value.None? { return -1; }
      var present := Getenv(name.value);
      if present.Some? && overwrite == 0 { return 0; }
      LookupWithout(env, name.value, name.value);
      var r := Unsetenv(name);
      if !mallocOk || !putenvOk { return -1; }
      Putenv(name.value, value.value);
      ret := 0;
    }
  }

  predicate Usable(name: Option<string>) {
    name.Some? && name.value != "" && '=' !in name.value
  }

  lemma WithoutOne(env: seq<string>, i: nat, name: string)
    requires i < |env| && Without(env[..i], name) == env[..i]
    ensures Matches(env[i], name) ==> Without(env[..i] + env[i + 1..], name) == Without(env, name)
    ensures (env[..i] + env[i + 1..])[..i] == env[..i]
    ensures !Matches(env[i], name) ==> Without(env[..i + 1], name) == env[..i + 1]
  {
    assert env == env[..i] + env[i..] && env[i..][1..] == env[i + 1..] && env[i..][0] == env[i];
    WithoutAppend(env[..i], env[i..], name);
    WithoutAppend(env[..i], env[i + 1..], name);
    assert env[..i + 1] == env[..i] + [env[i]];
    WithoutAppend(env[..i], [env[i]], name);
  }
}
