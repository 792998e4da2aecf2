/**
 resolve_path (src/fs/vfs.c): a path, absolute or relative to a working directory, made absolute and plain.
 */
module PathResolver {

  // ---------- Components ----------

  // The components of s, the first of which has begun with cur.
  function Fields(s: string, cur: string): seq<string> {
    if s == "" then (if cur == "" then [] else [cur])
    else if s[0] == '/' then (if cur == "" then [] else [cur]) + Fields(s[1..], "")
    else Fields(s[1..], cur + [s[0]])
  }

  function Components(s: string): seq<string> {
    Fields(s, "")
  }

  // "..", that goes up but not above the root, and ".", that stays.
  function Enter(stack: seq<string>, name: string): seq<string> {
    if name == ".." then (if stack == [] then [] else stack[..|stack| - 1])
    else if name == "." then stack
    else stack + [name]
  }

  function Walk(stack: seq<string>, names: seq<string>): seq<string>
    decreases names
  {
    if names == [] then stack else Walk(Enter(stack, names[0]), names[1..])
  }

  // The components, separated.
  function Spell(names: seq<string>): string {
    if names == [] then "" else if |names| == 1 then names[0] else names[0] + "/" + Spell(names[1..])
  }

  // The path that is walked: the input itself, or behind the working directory.
  function Full(cwd: string, inp: string): string {
    if inp != "" && inp[0] == '/' then inp
    else if |cwd| > 1 && cwd[|cwd| - 1] != '/' then cwd + "/" + inp
    else cwd + inp
  }

  function Resolve(cwd: string, inp: string): string {
    "/" + Spell(Walk([], Components(Full(cwd, inp))))
  }

  // A name that a plain path may contain.
  ghost predicate PlainName(n: string) {
    n != "" && '/' !in n && n != "." && n != ".."
  }

  ghost predicate AllPlain(names: seq<string>) {
    forall i :: 0 <= i < |names| ==> PlainName(names[i])
  }

  // ---------- Facts ----------

  lemma {:induction false} FieldsConcat(a: string, b: string, cur: string)
    ensures Fields(a + "/" + b, cur) == Fields(a, cur) + Components(b)
    decreases a
  {
    var s := a + "/" + b;
    if a == "" {
      assert s[1..] == b;
    } else {
      assert s[1..] == a[1..] + "/" + b;
      if a[0] == '/' {
        FieldsConcat(a[1..], b, "");
        var first := if cur == "" then [] else [cur];
        assert first + (Fields(a[1..], "") + Components(b)) == first + Fields(a[1..], "") + Components(b);
      } else {
        FieldsConcat(a[1..], b, cur + [a[0]]);
      }
    }
  }

  // No component is empty or holds a slash.
  lemma {:induction false} FieldsPure(s: string, cur: string)
    requires '/' !in cur
    ensures forall n :: n in Fields(s, cur) ==> n != "" && '/' !in n
    decreases s
  {
    if s != "" {
      if s[0] == '/' { FieldsPure(s[1..], ""); } else { FieldsPure(s[1..], cur + [s[0]]); }
    }
  }

  lemma {:induction false} FieldsName(n: string, cur: string)
    requires '/' !in n && cur + n != ""
    ensures Fields(n, cur) == [cur + n]
    decreases n
  {
    if n == "" {
      assert cur + n == cur;
    } else {
      assert cur + [n[0]] + n[1..] == cur + n;
      FieldsName(n[1..], cur + [n[0]]);
    }
  }

  // Plain names are read back from the path that spells them.
  lemma {:induction false} SpellReads(names: seq<string>)
    requires AllPlain(names)
    ensures Components(Spell(names)) == names
  {
    if names != [] {
      assert PlainName(names[0]);
      assert "" + names[0] == names[0];
      FieldsName(names[0], "");
      if |names| > 1 {
        SpellReads(names[1..]);
        FieldsConcat(names[0], Spell(names[1..]), "");
        assert names == [names[0]] + names[1..];
      }
    }
  }

  lemma SlashFirst(s: string)
    ensures Components("/" + s) == Components(s)
  {
    assert ("/" + s)[1..] == s;
    assert [] + Components(s) == Components(s);
  }

  lemma {:induction false} WalkConcat(stack: seq<string>, a: seq<string>, b: seq<string>)
    ensures Walk(stack, a + b) == Walk(Walk(stack, a), b)
    decreases a
  {
    if a == [] {
      assert a + b == b;
    } else {
      assert (a + b)[1..] == a[1..] + b;
      WalkConcat(Enter(stack, a[0]), a[1..], b);
    }
  }

  lemma {:induction false} WalkPlain(stack: seq<string>, names: seq<string>)
    requires AllPlain(stack) && forall n :: n in names ==> n != "" && '/' !in n
    ensures AllPlain(Walk(stack, names))
    decreases names
  {
    if names != [] {
      assert names[0] in names && forall n :: n in names[1..] ==> n in names;
      WalkPlain(Enter(stack, names[0]), names[1..]);
    }
  }

  // Walking plain names only goes down.
  lemma {:induction false} WalkDown(stack: seq<string>, names: seq<string>)
    requires AllPlain(names)
    ensures Walk(stack, names) == stack + names
    decreases names
  {
    if names == [] {
      assert stack + names == stack;
    } else {
      assert PlainName(names[0]);
      WalkDown(stack + [names[0]], names[1..]);
      assert stack + [names[0]] + names[1..] == stack + names;
    }
  }

  // The names a result spells.
  ghost function Names(cwd: string, inp: string): seq<string> {
    Walk([], Components(Full(cwd, inp)))
  }

  // The result is absolute and has no empty, "." or ".." component; what it spells is what was walked to.
  lemma ResolvePlain(cwd: string, inp: string)
    ensures Resolve(cwd, inp)[0] == '/' && AllPlain(Components(Resolve(cwd, inp)))
    ensures Components(Resolve(cwd, inp)) == Names(cwd, inp)
    ensures Resolve(cwd, inp) == "/" + Spell(Components(Resolve(cwd, inp)))
  {
    FieldsPure(Full(cwd, inp), "");
    WalkPlain([], Components(Full(cwd, inp)));
    var names := Names(cwd, inp);
    SpellReads(names);
    SlashFirst(Spell(names));
  }

  // A resolved path resolves to itself, from anywhere.
  lemma ResolveIdempotent(cwd: string, inp: string, from: string)
    ensures Resolve(from, Resolve(cwd, inp)) == Resolve(cwd, inp)
  {
    ResolvePlain(cwd, inp);
    WalkDown([], Components(Resolve(cwd, inp)));
    assert [] + Components(Resolve(cwd, inp)) == Components(Resolve(cwd, inp));
  }

  // ---------- Composition ----------

  predicate Relative(b: string) {
    b == "" || b[0] != '/'
  }

  // Behind a resolved directory, a relative path goes on from the directory's names.
  lemma GoesOn(cwd: string, a: string, b: string)
    requires Relative(b)
    ensures Names(Resolve(cwd, a), b) == Walk(Names(cwd, a), Components(b))
  {
    var dir, names := Resolve(cwd, a), Names(cwd, a);
    ResolvePlain(cwd, a);
    WalkDown([], names);
    assert [] + names == names;
    if names == [] {
      assert dir == "/";
      SlashFirst(b);
      WalkConcat([], [], Components(b));
    } else {
      LastNotSlash(names);
      FieldsConcat(dir, b, "");
      WalkConcat([], names, Components(b));
    }
  }

  lemma {:induction false} LastNotSlash(names: seq<string>)
    requires AllPlain(names) && names != []
    ensures Spell(names) != "" && Spell(names)[|Spell(names)| - 1] != '/'
  {
    assert PlainName(names[0]);
    if |names| == 1 {
      assert names[0][|names[0]| - 1] in names[0];
    } else {
      LastNotSlash(names[1..]);
    }
  }

  ghost predicate Composes(cwd: string, a: string, b: string) {
    Resolve(Resolve(cwd, a), b) == Resolve(cwd, a + "/" + b)
  }

  // Resolving in two steps is resolving the joined path.
  lemma ResolveComposes(cwd: string, a: string, b: string)
    requires Relative(b) && a != ""
    ensures Composes(cwd, a, b)
  {
    hide Full, Spell, Walk, Fields;
    GoesOn(cwd, a, b);
    FullJoined(cwd, a, b);
    FieldsConcat(Full(cwd, a), b, "");
    WalkConcat([], Components(Full(cwd, a)), Components(b));
  }

  lemma FullJoined(cwd: string, a: string, b: string)
    requires a != ""
    ensures Full(cwd, a + "/" + b) == Full(cwd, a) + "/" + b
  {
    var joined := a + "/" + b;
    assert joined[0] == a[0];
    if a[0] != '/' {
      if |cwd| > 1 && cwd[|cwd| - 1] != '/' {
        assert cwd + "/" + joined == cwd + "/" + a + "/" + b;
      } else {
        assert cwd + joined == cwd + a + "/" + b;
      }
    }
  }

  // With an empty first path the joined path would be absolute: the law holds of a exactly when a is not empty.
  lemma ComposesExactly(a: string)
    ensures (forall cwd, b :: Relative(b) ==> Composes(cwd, a, b)) <==> a != ""
  {
    if a != "" {
      forall cwd, b | Relative(b) ensures Composes(cwd, a, b) { ResolveComposes(cwd, a, b); }
    } else {
      EmptyDoesNot();
      assert Relative("y");
    }
  }

  lemma EmptyDoesNot()
    ensures !Composes("/x", "", "y")
  {
    GoesOn("/x", "", "y");
    assert Full("/x", "") == "/x/" && "/x/" == "/x" + "/" + "";
    FieldsConcat("/x", "", "");
    assert "/x" == "/" + "x" && "/y" == "/" + "y" && "" + "/" + "y" == "/y";
    SlashFirst("x");
    SlashFirst("y");
    OneName("x");
    OneName("y");
    assert Components("") == [] && ["x"] + [] == ["x"];
    WalkDown([], ["x"]);
    WalkDown([], ["y"]);
    assert [] + ["x"] == ["x"] && [] + ["y"] == ["y"];
    WalkDown(["x"], ["y"]);
    assert ["x"] + ["y"] == ["x", "y"];
    assert Spell(["x", "y"]) == "x" + "/" + Spell(["y"]) by { assert ["x", "y"][1..] == ["y"]; }
    assert |Resolve(Resolve("/x", ""), "y")| == 4;
    assert |Resolve("/x", "/y")| == 2;
  }

  lemma OneName(n: string)
    requires n == "x" || n == "y"
    ensures Components(n) == [n] && AllPlain([n])
  {
    assert "" + n == n;
    FieldsName(n, "");
  }

  // ---------- Up and down ----------

  // What a path with one more name at its end leads to.
  lemma OneMoreName(cwd: string, a: string, n: string)
    requires a != "" && n != "" && '/' !in n
    ensures Names(cwd, a + "/" + n) == Walk(Names(cwd, a), [n])
  {
    hide Full, Walk;
    FullJoined(cwd, a, n);
    FieldsConcat(Full(cwd, a), n, "");
    FieldsName(n, "");
    assert "" + n == n;
    WalkConcat([], Components(Full(cwd, a)), [n]);
  }

  // A plain name goes down, "." stays, and ".." goes up, but not above the root.
  lemma Steps(cwd: string, a: string, n: string)
    requires a != ""
    ensures PlainName(n) ==> Components(Resolve(cwd, a + "/" + n)) == Components(Resolve(cwd, a)) + [n]
    ensures Resolve(cwd, a + "/.") == Resolve(cwd, a)
    ensures var names := Components(Resolve(cwd, a));
            Components(Resolve(cwd, a + "/..")) == if names == [] then [] else names[..|names| - 1]
  {
    hide Resolve, Names, Walk, Components;
    if PlainName(n) { StepTo(cwd, a, n); }
    StepTo(cwd, a, ".");
    StepTo(cwd, a, "..");
    ResolvePlain(cwd, a);
    ResolvePlain(cwd, a + "/.");
    assert a + "/" + "." == a + "/." && a + "/" + ".." == a + "/..";
  }

  lemma StepTo(cwd: string, a: string, n: string)
    requires a != "" && n != "" && '/' !in n
    ensures Components(Resolve(cwd, a + "/" + n)) == Enter(Components(Resolve(cwd, a)), n)
  {
    hide Resolve, Names, Components;
    ResolvePlain(cwd, a);
    ResolvePlain(cwd, a + "/" + n);
    OneMoreName(cwd, a, n);
    assert [n][1..] == [];
    assert Walk(Names(cwd, a), [n]) == Walk(Enter(Names(cwd, a), n), []);
  }

  // So going up undoes going down, and above the root there is nothing.
  lemma UpUndoesDown(cwd: string, a: string, n: string)
    requires PlainName(n) && a != ""
    ensures Resolve(cwd, a + "/" + n + "/..") == Resolve(cwd, a)
    ensures Resolve(cwd, "/..") == "/"
  {
    var b := a + "/" + n;
    Steps(cwd, a, n);
    Steps(cwd, b, n);
    ResolvePlain(cwd, a);
    ResolvePlain(cwd, b + "/..");
    assert b + "/.." == a + "/" + n + "/..";
    RootUp(cwd);
    hide Resolve, Components;
    var names := Components(Resolve(cwd, a));
    assert (names + [n])[..|names|] == names;
  }

  lemma RootUp(cwd: string)
    ensures Resolve(cwd, "/..") == "/"
  {
    assert "/.." == "/" + ".." && "" + ".." == "..";
    SlashFirst("..");
    FieldsName("..", "");
    assert [".."][1..] == [];
    assert Walk([], [".."]) == Walk(Enter([], ".."), []);
  }

  // ---------- The code ----------

  lemma {:induction false} SpellAdd(names: seq<string>, n: string)
    ensures Spell(names + [n]) == Spell(names) + (if names == [] then "" else "/") + n
  {
    if names == [] {
      assert names + [n] == [n];
    } else {
      assert (names + [n])[1..] == names[1..] + [n];
      SpellAdd(names[1..], n);
      if |names| == 1 {
        assert Spell(names[1..] + [n]) == n;
      } else {
        assert names[0] + "/" + (Spell(names[1..]) + "/" + n) == names[0] + "/" + Spell(names[1..]) + "/" + n;
      }
    }
  }

  // What is left to do, with the names on the stack and the name under way.
  ghost function Ahead(stack: seq<string>, rest: string, name: string): seq<string> {
    Walk(stack, Fields(rest, name))
  }

  lemma AheadChar(stack: seq<string>, s: string, i: nat, name: string)
    requires i < |s|
    ensures s[i] != '/' ==> Ahead(stack, s[i..], name) == Ahead(stack, s[i + 1..], name + [s[i]])
    ensures s[i] == '/' && name == "" ==> Ahead(stack, s[i..], name) == Ahead(stack, s[i + 1..], "")
    ensures s[i] == '/' && name != "" ==> Ahead(stack, s[i..], name) == Ahead(Enter(stack, name), s[i + 1..], "")
  {
    assert s[i..][1..] == s[i + 1..];
    if s[i] == '/' {
      var rest := Fields(s[i + 1..], "");
      assert [] + rest == rest;
      if name != "" { assert ([name] + rest)[1..] == rest; }
    }
  }

  lemma AheadEnd(stack: seq<string>, name: string)
    ensures Ahead(stack, "", name) == if name == "" then stack else Enter(stack, name)
  {
    if name != "" {
      assert Fields("", name) == [name] && [name][1..] == [];
      assert Walk(stack, [name]) == Walk(Enter(stack, name), []);
    }
  }

  // resolve_path.
  method ResolvePath(cwd: string, inp: string) returns (out: string)
    ensures out == Resolve(cwd, inp)
  {
    hide Components, Walk, Spell;
    var tmp;
    if inp != "" && inp[0] == '/' {
      tmp := inp;
    } else {
      tmp := cwd;
      if |tmp| > 1 && tmp[|tmp| - 1] != '/' { tmp := tmp + "/"; }
      tmp := tmp + inp;
    }
    var stack := Collapse(tmp);
    out := Rebuild(stack);
  }

  // The stack of names, read off character by character.
  method Collapse(tmp: string) returns (stack: seq<string>)
    ensures stack == Walk([], Components(tmp))
  {
    hide Ahead, Enter, Walk, Components;
    var name: string, i := "", 0;
    stack := [];
    Begin(tmp);
    if tmp != "" && tmp[0] == '/' {
      AheadChar([], tmp, 0, "");
      i := 1;
    }
    while i < |tmp|
      invariant i <= |tmp| && Ahead(stack, tmp[i..], name) == Walk([], Components(tmp))
    {
      AheadChar(stack, tmp, i, name);
      if tmp[i] == '/' {
        if name != "" { stack := Push(stack, name); }
        name := "";
      } else {
        name := name + [tmp[i]];
      }
      i := i + 1;
    }
    assert tmp[i..] == "";
    AheadEnd(stack, name);
    if name != "" { stack := Push(stack, name); }
  }

  // The names put together again.
  method Rebuild(stack: seq<string>) returns (out: string)
    ensures out == "/" + Spell(stack)
  {
    hide Spell;
    out := "/";
    var k := 0;
    Empty(stack);
    while k < |stack|
      invariant k <= |stack| && out == "/" + Spell(stack[..k])
    {
      SpellAdd(stack[..k], stack[k]);
      assert stack[..k + 1] == stack[..k] + [stack[k]];
      if k > 0 { out := out + "/"; }
      out := out + stack[k];
      k := k + 1;
    }
    assert stack[..k] == stack;
  }

  // One finished name.
  method Push(stack: seq<string>, name: string) returns (r: seq<string>)
    ensures r == Enter(stack, name)
  {
    r := stack;
    if name == ".." {
      if |stack| > 0 { r := stack[..|stack| - 1]; }
    } else if name != "." {
      r := stack + [name];
    }
  }

  lemma Begin(s: string)
    ensures Ahead([], s[0..], "") == Walk([], Components(s))
  {
    assert s[0..] == s;
  }

  lemma Empty(stack: seq<string>)
    ensures "/" + Spell(stack[..0]) == "/"
  {
    assert stack[..0] == [];
  }
}
