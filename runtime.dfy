/**
 * Runtime values (nobject.h and the callable kinds the interpreter uses) and
 * the scope chain (environment.cpp).
 *
 * A scope maps names to possibly-null objects: a name can be bound to the null
 * result of a closure whose body ends in a statement that yields nothing, and
 * lookup then hands that null back. `None` models the null pointer.
 *
 * A scope's link to its enclosing scope never changes after the scope is
 * built, so the link and the scope's ghost depth are constants; only the
 * name map is updated in place.
 */
module Runtime {

  import opened Errors
  import opened Tokens
  import opened Ast

  datatype Value =
    | Real(r: real)
    | Complex(re: real, im: real)
    | Bool(b: bool)
    | Str(s: string)
    | Callable(callable: Callable)

  /** A possibly-null NObject pointer. */
  type Object = Option<Value>

  /**
   * A native function (host code of fixed arity) or a closure: the parameters
   * and body of the lambda that created it and the scope it captured.
   */
  datatype Callable =
    | Native(name: string, arity: nat)
    | Closure(parameters: seq<Token>, body: seq<Stmt>, env: Environment)

  class Environment {
    var bindings: map<string, Object>
    const enclosing: Environment?
    ghost const depth: nat

    /** The chain of enclosing scopes is finite: depth strictly decreases outward. */
    ghost predicate Valid()
      decreases depth
    {
      enclosing != null ==> enclosing.depth < depth && enclosing.Valid()
    }

    /** This scope and every scope it encloses in. */
    ghost function Chain(): (c: set<Environment>)
      requires Valid()
      ensures this in c
      ensures forall s <- c :: s.Valid() && s.depth <= depth
      ensures enclosing == null ==> c == {this}
      ensures enclosing != null ==> c == {this} + enclosing.Chain() && this !in enclosing.Chain()
      decreases depth
    {
      if enclosing == null then {this} else {this} + enclosing.Chain()
    }

    /** A fresh, empty scope nested in `enclosing` (or a root scope when it is null). */
    constructor (enclosing: Environment?)
      requires enclosing != null ==> enclosing.Valid()
      ensures Valid() && bindings == map[] && this.enclosing == enclosing
    {
      this.enclosing := enclosing;
      depth := if enclosing == null then 0 else enclosing.depth + 1;
      bindings := map[];
    }

    /**
     * A scope that is a member-wise copy of `other`: the same bindings and the
     * same enclosing link (NClosure's `*environment = *t_environment`).
     */
    constructor Copy(other: Environment)
      requires other.Valid()
      ensures Valid()
      ensures bindings == other.bindings && enclosing == other.enclosing && depth == other.depth
    {
      enclosing := other.enclosing;
      depth := other.depth;
      bindings := other.bindings;
    }

    /** Some scope on the chain maps the name. */
    predicate ExistsSomewhere(name: string)
      requires Valid()
      reads Chain()
      decreases depth
    {
      name in bindings || (enclosing != null && enclosing.ExistsSomewhere(name))
    }

    /** The innermost scope on the chain that maps the name. */
    ghost function Holder(name: string): (h: Environment)
      requires Valid() && ExistsSomewhere(name)
      reads Chain()
      ensures h in Chain() && name in h.bindings
      ensures forall s <- Chain() :: s.depth > h.depth ==> name !in s.bindings
      decreases depth
    {
      if name in bindings then this else enclosing.Holder(name)
    }

    /**
     * The object bound to the name in the innermost scope that maps it, or
     * null when no scope on the chain does.
     */
    function Lookup(name: string): (r: Object)
      requires Valid()
      reads Chain()
      decreases depth
    {
      if name in bindings then bindings[name]
      else if enclosing != null then enclosing.Lookup(name)
      else None
    }

    /** ExistsSomewhere holds exactly when some scope on the chain maps the name. */
    lemma {:induction false} ExistsSomewhereIsSomeScope(name: string)
      requires Valid()
      ensures ExistsSomewhere(name) <==> exists s <- Chain() :: name in s.bindings
      decreases depth
    {
      if enclosing != null {
        enclosing.ExistsSomewhereIsSomeScope(name);
      }
    }

    /** Lookup reads the innermost scope that maps the name, and yields null when none does. */
    lemma {:induction false} LookupIsInnermost(name: string)
      requires Valid()
      ensures !ExistsSomewhere(name) ==> Lookup(name) == None
      ensures ExistsSomewhere(name) ==> Lookup(name) == Holder(name).bindings[name]
      decreases depth
    {
      if name !in bindings && enclosing != null {
        enclosing.LookupIsInnermost(name);
      }
    }

    /**
     * Declares the name in this scope, shadowing any outer binding. The body
     * of Environment::declareVar is not part of this model; this is the
     * behaviour its two call sites rely on.
     */
    method DeclareVar(name: string, value: Object)
      modifies this
      ensures bindings == old(bindings)[name := value]
    {
      bindings := bindings[name := value];
    }

    /** The bindings of every scope on the chain, by scope. */
    ghost function Snapshot(): (m: map<Environment, map<string, Object>>)
      requires Valid()
      reads Chain()
      decreases depth
    {
      var outer: map<Environment, map<string, Object>> :=
        if enclosing == null then map[] else enclosing.Snapshot();
      outer[this := bindings]
    }

    /** The snapshot holds exactly the chain's scopes, each with its current bindings. */
    lemma {:induction false} SnapshotIsBindings()
      requires Valid()
      ensures Snapshot().Keys == Chain()
      ensures forall s <- Chain() :: Snapshot()[s] == s.bindings
      decreases depth
    {
      if enclosing != null {
        enclosing.SnapshotIsBindings();
      }
    }

    /** The scope `bind` writes: the innermost holder of the name, or this scope when none holds it. */
    ghost function Target(name: string): (t: Environment)
      requires Valid()
      reads Chain()
      ensures t in Chain()
    {
      if ExistsSomewhere(name) then Holder(name) else this
    }

    /**
     * Assigns the name where it is bound (the innermost scope that maps it),
     * or binds it in this scope when no scope on the chain maps it. No other
     * scope and no other name changes.
     */
    method Bind(name: string, value: Object)
      requires Valid()
      modifies Chain()
      ensures Lookup(name) == value
      ensures forall n :: n != name ==> Lookup(n) == old(Lookup(n))
      ensures var t := old(Target(name));
              Snapshot() == old(Snapshot())[t := old(t.bindings)[name := value]]
      decreases depth
    {
      if !ExistsSomewhere(name) || name in bindings {
        bindings := bindings[name := value];
        if enclosing != null {
          assert enclosing.Snapshot() == old(enclosing.Snapshot());
          assert forall n :: enclosing.Lookup(n) == old(enclosing.Lookup(n));
        }
      } else {
        // the ImplementationException "enclosing was null" cannot be raised here
        if enclosing == null {
          assert false;
        }
        enclosing.Bind(name, value);
        assert bindings == old(bindings);
      }
    }
  }
}
