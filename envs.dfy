/** The chained variable scopes of both interpreters (src/environment.rs and
    lox-rust/src/environment.rs). The two files differ only in the message
    of an undefined variable, which `legacy` selects. A chain of scopes is
    listed innermost first. */
module Envs {
  import opened Wrappers
  import CErrors

  type Scope<V> = map<string, V>

  /** The message for a name no scope binds. */
  function UndefinedMessage(legacy: bool, name: string): (r: string)
    ensures legacy ==> |r| == |name| + 32 && r[9..9 + |name|] == name
    ensures !legacy ==> |r| == |name| + 22 && r[20..|r| - 2] == name
  {
    if legacy then "Variable " + name + " has not been declared!"
    else "Undefined variable '" + name + "'."
  }

  /** The innermost scope of the chain that binds `name`, if any. */
  function Innermost<V>(scopes: seq<Scope<V>>, name: string): (r: Option<nat>)
    ensures r.Some? ==> r.value < |scopes| && name in scopes[r.value]
    ensures r.Some? ==> forall j :: 0 <= j < r.value ==> name !in scopes[j]
    ensures r.None? ==> forall j :: 0 <= j < |scopes| ==> name !in scopes[j]
  {
    if scopes == [] then None
    else if name in scopes[0] then Some(0)
    else match Innermost(scopes[1..], name)
      case None => None
      case Some(i) => Some(i + 1)
  }

  /** `lookup`, on the chain: the binding of the innermost scope that has the name. */
  function ChainLookup<V>(scopes: seq<Scope<V>>, name: string, legacy: bool): (r: Result<V, CErrors.EvalError>)
    ensures Innermost(scopes, name).None? ==> r == Failure(CErrors.New(UndefinedMessage(legacy, name)))
    ensures Innermost(scopes, name).Some? ==> r == Success(scopes[Innermost(scopes, name).value][name])
  {
    if scopes == [] then Failure(CErrors.New(UndefinedMessage(legacy, name)))
    else if name in scopes[0] then Success(scopes[0][name])
    else ChainLookup(scopes[1..], name, legacy)
  }

  /** `assign`, on the chain: the innermost binding is overwritten; no
      binding is ever created. */
  function ChainAssign<V>(scopes: seq<Scope<V>>, name: string, value: V, legacy: bool): (r: Result<seq<Scope<V>>, CErrors.EvalError>)
    ensures Innermost(scopes, name).None? ==> r == Failure(CErrors.New(UndefinedMessage(legacy, name)))
    ensures Innermost(scopes, name).Some? ==>
      (r.Success? && r.value == scopes[Innermost(scopes, name).value := scopes[Innermost(scopes, name).value][name := value]])
  {
    if scopes == [] then Failure(CErrors.New(UndefinedMessage(legacy, name)))
    else if name in scopes[0] then Success([scopes[0][name := value]] + scopes[1..])
    else
      var rest :- ChainAssign(scopes[1..], name, value, legacy);
      Success([scopes[0]] + rest)
  }

  /** A name declared in the innermost scope is found with its new value. */
  lemma LookupAfterDeclare<V>(scope: Scope<V>, outer: seq<Scope<V>>, name: string, value: V, legacy: bool)
    ensures ChainLookup([scope[name := value]] + outer, name, legacy) == Success(value)
  {
  }

  /** After a successful assignment the name is found with the assigned value. */
  lemma {:induction false} LookupAfterAssign<V>(scopes: seq<Scope<V>>, name: string, value: V, legacy: bool)
    requires ChainAssign(scopes, name, value, legacy).Success?
    ensures ChainLookup(ChainAssign(scopes, name, value, legacy).value, name, legacy) == Success(value)
  {
    var i := Innermost(scopes, name).value;
    var after := ChainAssign(scopes, name, value, legacy).value;
    SameInnermost(scopes, after, name, i);
  }

  lemma SameInnermost<V>(scopes: seq<Scope<V>>, after: seq<Scope<V>>, name: string, i: nat)
    requires Innermost(scopes, name) == Some(i)
    requires |after| == |scopes| && name in after[i]
    requires forall j :: 0 <= j < |scopes| ==> (name in after[j] <==> name in scopes[j])
    ensures Innermost(after, name) == Some(i)
  {
  }

  /** An assignment changes no other name and leaves every scope's names as they were. */
  lemma AssignKeepsOthers<V>(scopes: seq<Scope<V>>, name: string, value: V, other: string, legacy: bool)
    requires ChainAssign(scopes, name, value, legacy).Success? && other != name
    ensures var after := ChainAssign(scopes, name, value, legacy).value;
      |after| == |scopes| &&
      (forall j :: 0 <= j < |scopes| ==> after[j].Keys == scopes[j].Keys) &&
      ChainLookup(after, other, legacy) == ChainLookup(scopes, other, legacy)
  {
    var after := ChainAssign(scopes, name, value, legacy).value;
    var i := Innermost(scopes, name).value;
    forall j | 0 <= j < |scopes|
      ensures after[j].Keys == scopes[j].Keys
      ensures other in after[j] ==> after[j][other] == scopes[j][other]
    {
    }
    SameLookup(scopes, after, other, legacy);
  }

  lemma {:induction false} SameLookup<V>(scopes: seq<Scope<V>>, after: seq<Scope<V>>, name: string, legacy: bool)
    requires |after| == |scopes|
    requires forall j :: 0 <= j < |scopes| ==> (name in after[j] <==> name in scopes[j])
    requires forall j :: 0 <= j < |scopes| && name in scopes[j] ==> after[j][name] == scopes[j][name]
    ensures ChainLookup(after, name, legacy) == ChainLookup(scopes, name, legacy)
  {
    if scopes != [] && name !in scopes[0] {
      SameLookup(scopes[1..], after[1..], name, legacy);
    }
  }

  /** One scope of the chain: its own bindings and the scope around it. */
  class Environment<V> {
    var env: Scope<V>
    var outer: Environment?<V>
    const legacy: bool
    ghost var Repr: set<object>
    /** The chain seen from this scope, innermost first. */
    ghost var Scopes: seq<Scope<V>>

    ghost predicate Valid()
      reads this, Repr
      decreases Repr
    {
      this in Repr &&
      (outer == null ==> Scopes == [env]) &&
      (outer != null ==>
        outer in Repr && outer.Repr <= Repr && this !in outer.Repr &&
        outer.legacy == legacy && outer.Valid() && Scopes == [env] + outer.Scopes)
    }

    /** `Environment::new`: a single empty scope. */
    constructor (legacy: bool)
      ensures Valid() && fresh(Repr)
      ensures Scopes == [map[]] && outer == null && this.legacy == legacy
    {
      env := map[];
      outer := null;
      this.legacy := legacy;
      Repr := {this};
      Scopes := [map[]];
    }

    /** `Environment::from_outer`: an empty scope inside `outer`. */
    constructor FromOuter(outer: Environment<V>)
      requires outer.Valid()
      ensures Valid() && fresh(Repr - outer.Repr)
      ensures this.outer == outer && Scopes == [map[]] + outer.Scopes && legacy == outer.legacy
    {
      env := map[];
      this.outer := outer;
      legacy := outer.legacy;
      Repr := {this} + outer.Repr;
      Scopes := [map[]] + outer.Scopes;
    }

    /** `add_scope`: a fresh scope whose outer scope is `outer`. */
    static method AddScope(outer: Environment<V>) returns (e: Environment<V>)
      requires outer.Valid()
      ensures e.Valid() && fresh(e) && e.outer == outer
      ensures e.Scopes == [map[]] + outer.Scopes
    {
      e := new Environment.FromOuter(outer);
    }

    /** `remove_scope`: the outer scope, or an error at the outermost scope.
        With `AddScope` this gives back the scope a block started from. */
    method RemoveScope() returns (r: Result<Environment<V>, CErrors.EvalError>)
      requires Valid()
      ensures outer != null ==> r == Success(outer)
      ensures outer == null ==> r == Failure(CErrors.New("Tried to remove non-existent scope from environment!"))
    {
      if outer != null {
        r := Success(outer);
      } else {
        r := Failure(CErrors.New("Tried to remove non-existent scope from environment!"));
      }
    }

    /** `declare`: binds or rebinds the name in this scope only; never fails. */
    method Declare(name: string, value: V) returns (r: Result<(), CErrors.EvalError>)
      requires Valid()
      modifies this
      ensures Valid() && Repr == old(Repr) && outer == old(outer)
      ensures env == old(env)[name := value]
      ensures Scopes == [old(env)[name := value]] + old(Scopes)[1..]
      ensures r.Success?
    {
      env := env[name := value];
      Scopes := [env] + Scopes[1..];
      r := Success(());
    }

    /** `lookup`: searches outward from this scope. */
    method Lookup(name: string) returns (r: Result<V, CErrors.EvalError>)
      requires Valid()
      ensures r == ChainLookup(Scopes, name, legacy)
      decreases Repr
    {
      if name in env {
        r := Success(env[name]);
      } else if outer != null {
        r := outer.Lookup(name);
      } else {
        r := Failure(CErrors.New(UndefinedMessage(legacy, name)));
      }
    }

    /** `assign`: overwrites the innermost binding of the name; the outer
        link, taken out for the recursive call, is put back unchanged. */
    method Assign(name: string, value: V) returns (r: Result<(), CErrors.EvalError>)
      requires Valid()
      modifies Repr
      ensures Valid() && Repr == old(Repr) && outer == old(outer)
      ensures var expected := ChainAssign(old(Scopes), name, value, legacy);
        (r.Success? <==> expected.Success?) &&
        (expected.Success? ==> Scopes == expected.value) &&
        (expected.Failure? ==> r.error == expected.error && Scopes == old(Scopes))
      decreases Repr
    {
      if name in env {
        env := env[name := value];
        Scopes := [env] + Scopes[1..];
        r := Success(());
      } else {
        var taken := outer;
        if taken != null {
          var res := taken.Assign(name, value);
          Scopes := [env] + taken.Scopes;
          r := res;
        } else {
          r := Failure(CErrors.New(UndefinedMessage(legacy, name)));
        }
      }
    }
  }
}
