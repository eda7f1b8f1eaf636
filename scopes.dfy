/** The scope stack of the interpreter: a sequence of frames, each mapping a
    name to its parameter list and body. The last frame is the innermost one. */
module Scopes {
  import opened Wrappers
  import opened Types

  /** What a name is bound to. A variable is a binding with no parameters. */
  datatype Binding = Binding(params: seq<string>, body: Expr)

  type Frame = map<string, Binding>

  /** Frames from outermost (index 0) to innermost (last). */
  type Contexts = seq<Frame>

  const NoContext := "Enviroment has no context!"

  /** `i` is the innermost frame that binds `s`. */
  ghost predicate Innermost(ctxs: Contexts, s: string, i: int) {
    0 <= i < |ctxs| && s in ctxs[i] && forall j | i < j < |ctxs| :: s !in ctxs[j]
  }

  /** Search the frames from the innermost outwards. */
  function Resolve(ctxs: Contexts, s: string): (r: Option<Binding>)
    ensures r.None? <==> forall i | 0 <= i < |ctxs| :: s !in ctxs[i]
    ensures forall i | Innermost(ctxs, s, i) :: r == Some(ctxs[i][s])
  {
    if ctxs == [] then None
    else if s in ctxs[|ctxs| - 1] then Some(ctxs[|ctxs| - 1][s])
    else
      var r := Resolve(ctxs[..|ctxs| - 1], s);
      assert forall i | Innermost(ctxs, s, i) :: Innermost(ctxs[..|ctxs| - 1], s, i);
      r
  }

  /** Some frame binds `s`. */
  function IsBound(ctxs: Contexts, s: string): (b: bool)
    ensures b <==> Resolve(ctxs, s).Some?
  {
    exists i | 0 <= i < |ctxs| :: s in ctxs[i]
  }

  function Push(ctxs: Contexts): (r: Contexts)
    ensures |r| == |ctxs| + 1 && r[..|ctxs|] == ctxs && r[|ctxs|] == map[]
  {
    ctxs + [map[]]
  }

  /** Removing from an empty stack leaves it empty. */
  function Pop(ctxs: Contexts): (r: Contexts)
    ensures ctxs == [] ==> r == []
    ensures ctxs != [] ==> r + [ctxs[|ctxs| - 1]] == ctxs
  {
    if ctxs == [] then [] else ctxs[..|ctxs| - 1]
  }

  /** Insert or overwrite `name` in the innermost frame. */
  function Define(ctxs: Contexts, name: string, b: Binding): (r: Result<Contexts, string>)
    ensures r.Fail? <==> ctxs == []
    ensures r.Fail? ==> r.error == NoContext
    ensures r.Ok? ==> |r.value| == |ctxs| && r.value[..|ctxs| - 1] == ctxs[..|ctxs| - 1]
    ensures r.Ok? ==> r.value[|ctxs| - 1].Keys == ctxs[|ctxs| - 1].Keys + {name}
  {
    if ctxs == [] then Fail(NoContext)
    else
      var top := |ctxs| - 1;
      Ok(ctxs[top := ctxs[top][name := b]])
  }

  /** After a definition the name resolves to the new binding and every other
      name resolves as before. */
  lemma DefineResolves(ctxs: Contexts, name: string, b: Binding)
    requires ctxs != []
    ensures Resolve(Define(ctxs, name, b).value, name) == Some(b)
    ensures forall t | t != name :: Resolve(Define(ctxs, name, b).value, t) == Resolve(ctxs, t)
  {
    var top := |ctxs| - 1;
    var c := Define(ctxs, name, b).value;
    assert Innermost(c, name, top);
    forall t | t != name ensures Resolve(c, t) == Resolve(ctxs, t) {
      assert c[..top] == ctxs[..top];
      assert t in c[top] <==> t in ctxs[top];
      if t !in ctxs[top] {
        assert c == c[..top] + [c[top]] && ctxs == ctxs[..top] + [ctxs[top]];
      }
    }
  }

  /** `add_var`, whose error is ignored by the callers that use this. */
  function AddVarOrKeep(ctxs: Contexts, v: (string, Expr)): Contexts {
    match Define(ctxs, v.0, Binding([], v.1))
    case Ok(c) => c
    case Fail(_) => ctxs
  }

  /** `add_var` applied to each pair in order, ignoring errors. */
  function AddVars(ctxs: Contexts, vars: seq<(string, Expr)>): (r: Contexts)
    ensures |r| == |ctxs|
    decreases |vars|
  {
    if vars == [] then ctxs
    else AddVarOrKeep(AddVars(ctxs, vars[..|vars| - 1]), vars[|vars| - 1])
  }

  /** The frame of variables that a sequence of pairs describes; a later pair
      for the same name wins. */
  function VarsFrame(vars: seq<(string, Expr)>): Frame
    decreases |vars|
  {
    if vars == [] then map[]
    else VarsFrame(vars[..|vars| - 1])[vars[|vars| - 1].0 := Binding([], vars[|vars| - 1].1)]
  }

  /** A name is in the frame exactly when some pair names it. */
  lemma {:induction false} VarsFrameKeys(vars: seq<(string, Expr)>, n: string)
    ensures n in VarsFrame(vars) <==> exists i | 0 <= i < |vars| :: vars[i].0 == n
    decreases |vars|
  {
    if vars != [] {
      var init := vars[..|vars| - 1];
      VarsFrameKeys(init, n);
      if n in VarsFrame(init) {
        var i :| 0 <= i < |init| && init[i].0 == n;
        assert vars[i].0 == n;
      }
      if exists i | 0 <= i < |vars| :: vars[i].0 == n {
        var i :| 0 <= i < |vars| && vars[i].0 == n;
        if i < |init| {
          assert init[i].0 == n;
        }
      }
    }
  }

  /** The value of a name is the one of its last pair. */
  lemma {:induction false} VarsFrameLast(vars: seq<(string, Expr)>, n: string, i: int)
    requires 0 <= i < |vars| && vars[i].0 == n
    requires forall j | i < j < |vars| :: vars[j].0 != n
    ensures n in VarsFrame(vars) && VarsFrame(vars)[n] == Binding([], vars[i].1)
    decreases |vars|
  {
    if i < |vars| - 1 {
      var init := vars[..|vars| - 1];
      assert init[i] == vars[i];
      VarsFrameLast(init, n, i);
    }
  }

  /** Adding variables to a stack with a top frame only changes that frame, by
      overlaying the frame of the pairs. */
  lemma {:induction false} AddVarsOnTop(ctxs: Contexts, f: Frame, vars: seq<(string, Expr)>)
    ensures AddVars(ctxs + [f], vars) == ctxs + [f + VarsFrame(vars)]
    decreases |vars|
  {
    if vars == [] {
      assert f + map[] == f;
    } else {
      var init := vars[..|vars| - 1];
      var last := vars[|vars| - 1];
      AddVarsOnTop(ctxs, f, init);
      var g := f + VarsFrame(init);
      DefineOnTop(ctxs, g, last.0, Binding([], last.1));
      assert g[last.0 := Binding([], last.1)] == f + VarsFrame(vars);
    }
  }

  /** Defining on a stack with top frame `f` updates `f` alone. */
  lemma DefineOnTop(ctxs: Contexts, f: Frame, name: string, b: Binding)
    ensures Define(ctxs + [f], name, b) == Ok(ctxs + [f[name := b]])
  {
    var c := ctxs + [f];
    assert c[|ctxs| := f[name := b]] == ctxs + [f[name := b]];
  }

  /** The variables of a fresh environment. */
  const DefaultVars: seq<(string, Expr)> := [("False", List([])), ("True", List([FNum(1)]))]

  /** The fresh environment has one frame, where `False` is the empty list and
      `True` is the list holding 1, and nothing else. */
  lemma DefaultBindings()
    ensures |AddVars(Push([]), DefaultVars)| == 1
    ensures Resolve(AddVars(Push([]), DefaultVars), "False") == Some(Binding([], List([])))
    ensures Resolve(AddVars(Push([]), DefaultVars), "True") == Some(Binding([], List([FNum(1)])))
    ensures forall s | s != "False" && s != "True" :: Resolve(AddVars(Push([]), DefaultVars), s).None?
  {
    var c0 := Push([]);
    var c1 := Define(c0, "False", Binding([], List([]))).value;
    var c2 := Define(c1, "True", Binding([], List([FNum(1)]))).value;
    assert AddVars(c0, DefaultVars[..1]) == c1 by {
      assert DefaultVars[..1][..0] == [];
    }
    assert AddVars(c0, DefaultVars) == c2 by {
      assert DefaultVars[..|DefaultVars| - 1] == DefaultVars[..1];
    }
    DefineResolves(c0, "False", Binding([], List([])));
    DefineResolves(c1, "True", Binding([], List([FNum(1)])));
    assert forall s :: Resolve(c0, s).None?;
  }

  /** A definition made in a pushed frame is gone after the pop, and the whole
      stack is as before the push. */
  lemma ScopedDefinition(ctxs: Contexts, name: string, b: Binding)
    ensures Define(Push(ctxs), name, b).Ok?
    ensures Resolve(Define(Push(ctxs), name, b).value, name) == Some(b)
    ensures Pop(Define(Push(ctxs), name, b).value) == ctxs
  {
    DefineResolves(Push(ctxs), name, b);
  }

  /** The environment object of the interpreter. */
  class Environment {
    var contexts: Contexts

    constructor Empty()
      ensures contexts == []
    {
      contexts := [];
    }

    /** One frame holding the given variables. */
    constructor FromVars(vars: seq<(string, Expr)>)
      ensures contexts == AddVars(Push([]), vars)
    {
      contexts := [];
      new;
      PushContext();
      AddEach(vars);
    }

    constructor Default()
      ensures contexts == AddVars(Push([]), DefaultVars)
    {
      contexts := [];
      new;
      PushContext();
      var _ := AddVar("False", List([]));
      var _ := AddVar("True", List([FNum(1)]));
      assert DefaultVars[..1] == [("False", List([]))];
    }

    method Lookup(symbol: string) returns (r: Option<Binding>)
      ensures r == Resolve(contexts, symbol)
    {
      var i := |contexts|;
      while i > 0
        invariant 0 <= i <= |contexts|
        invariant forall j | i <= j < |contexts| :: symbol !in contexts[j]
      {
        if symbol in contexts[i - 1] {
          assert Innermost(contexts, symbol, i - 1);
          return Some(contexts[i - 1][symbol]);
        }
        i := i - 1;
      }
      return None;
    }

    method ContainsKey(symbol: string) returns (b: bool)
      ensures b <==> Resolve(contexts, symbol).Some?
    {
      var i := |contexts|;
      while i > 0
        invariant 0 <= i <= |contexts|
        invariant forall j | i <= j < |contexts| :: symbol !in contexts[j]
      {
        if symbol in contexts[i - 1] {
          return true;
        }
        i := i - 1;
      }
      return false;
    }

    /** `add_var` for each pair in order, ignoring its result. */
    method AddEach(vars: seq<(string, Expr)>)
      modifies this
      ensures contexts == AddVars(old(contexts), vars)
    {
      var i := 0;
      while i < |vars|
        invariant 0 <= i <= |vars|
        invariant contexts == AddVars(old(contexts), vars[..i])
      {
        var _ := AddVar(vars[i].0, vars[i].1);
        assert vars[..i + 1][..i] == vars[..i];
        i := i + 1;
      }
      assert vars[..i] == vars;
    }

    method PushContext()
      modifies this
      ensures contexts == Push(old(contexts))
    {
      contexts := contexts + [map[]];
    }

    method PopContext()
      modifies this
      ensures contexts == Pop(old(contexts))
    {
      if |contexts| > 0 {
        contexts := contexts[..|contexts| - 1];
      }
    }

    method AddVar(v: string, val: Expr) returns (r: Result<(), string>)
      modifies this
      ensures Define(old(contexts), v, Binding([], val)).Fail? ==>
                r == Fail(NoContext) && contexts == old(contexts)
      ensures Define(old(contexts), v, Binding([], val)).Ok? ==>
                r == Ok(()) && contexts == Define(old(contexts), v, Binding([], val)).value
    {
      r := AddBinding(v, Binding([], val));
    }

    method AddFn(name: string, params: seq<string>, body: Expr) returns (r: Result<(), string>)
      modifies this
      ensures Define(old(contexts), name, Binding(params, body)).Fail? ==>
                r == Fail(NoContext) && contexts == old(contexts)
      ensures Define(old(contexts), name, Binding(params, body)).Ok? ==>
                r == Ok(()) && contexts == Define(old(contexts), name, Binding(params, body)).value
    {
      r := AddBinding(name, Binding(params, body));
    }

    /** Shared insertion into the innermost frame. */
    method AddBinding(name: string, b: Binding) returns (r: Result<(), string>)
      modifies this
      ensures Define(old(contexts), name, b).Fail? ==> r == Fail(NoContext) && contexts == old(contexts)
      ensures Define(old(contexts), name, b).Ok? ==> r == Ok(()) && contexts == Define(old(contexts), name, b).value
    {
      if |contexts| == 0 {
        return Fail(NoContext);
      }
      var top := |contexts| - 1;
      contexts := contexts[top := contexts[top][name := b]];
      return Ok(());
    }

    function NumContexts(): (n: nat)
      reads this
      ensures n == |contexts|
    {
      |contexts|
    }
  }
}
