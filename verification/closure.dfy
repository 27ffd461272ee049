/** The dependency closure of the lock file (scripts/freeze_lock.py). */
module DependencyClosure {

  /** One requirement of a distribution; `applies` is the value of its environment marker (true without one). */
  datatype Requirement = Requirement(name: string, applies: bool)

  type Installed = map<string, seq<Requirement>>

  /** `from` is installed and requires `to` here. */
  predicate Requires(installed: Installed, from: string, to: string) {
    from in installed && exists i :: 0 <= i < |installed[from]| && installed[from][i] == Requirement(to, true)
  }

  /** A chain of installed packages from a root, each required by the one before. */
  predicate Chain(installed: Installed, roots: seq<string>, path: seq<string>) {
    && path != [] && path[0] in roots
    && (forall i :: 0 <= i < |path| ==> path[i] in installed)
    && forall i :: 0 < i < |path| ==> Requires(installed, path[i - 1], path[i])
  }

  ghost predicate Reachable(installed: Installed, roots: seq<string>, name: string) {
    exists path :: Chain(installed, roots, path) && path[|path| - 1] == name
  }

  lemma ReachableStep(installed: Installed, roots: seq<string>, name: string, next: string)
    requires Reachable(installed, roots, name) && Requires(installed, name, next) && next in installed
    ensures Reachable(installed, roots, next)
  {
    var path :| Chain(installed, roots, path) && path[|path| - 1] == name;
    var longer := path + [next];
    forall i | 0 < i < |longer| ensures Requires(installed, longer[i - 1], longer[i]) {
      if i < |path| { assert Requires(installed, path[i - 1], path[i]); }
    }
    assert Chain(installed, roots, longer);
  }

  /** A set that holds the installed roots and is closed under requirements holds everything reachable. */
  lemma {:induction false} ClosedHoldsChain(installed: Installed, roots: seq<string>, seen: set<string>,
          path: seq<string>, n: nat)
    requires Chain(installed, roots, path) && n < |path|
    requires forall r :: r in roots && r in installed ==> r in seen
    requires forall a, b :: a in seen && b in installed && Requires(installed, a, b) ==> b in seen
    ensures path[n] in seen
  {
    if n > 0 {
      ClosedHoldsChain(installed, roots, seen, path, n - 1);
      assert Requires(installed, path[n - 1], path[n]);
    }
  }

  /** What is still to be looked at covers the roots and every requirement of a package already seen. */
  predicate Covered(installed: Installed, seen: set<string>, stack: seq<string>, name: string) {
    name in installed ==> name in seen || name in stack
  }

  /** Pushes the requirements that apply, in order. */
  method PushRequirements(reqs: seq<Requirement>, stack: seq<string>) returns (r: seq<string>)
    ensures forall x :: x in r <==> x in stack || Requirement(x, true) in reqs
  {
    r := stack;
    for i := 0 to |reqs|
      invariant forall x :: x in r <==> x in stack || Requirement(x, true) in reqs[..i]
    {
      assert reqs[..i + 1] == reqs[..i] + [reqs[i]];
      if reqs[i].applies {
        r := r + [reqs[i].name];
      }
    }
    assert reqs[..|reqs|] == reqs;
  }

  /** Exactly the installed packages reachable from the roots through installed packages over requirements that
      apply. */
  method Closure(installed: Installed, roots: seq<string>) returns (seen: set<string>)
    ensures forall name :: name in seen <==> Reachable(installed, roots, name)
  {
    seen := {};
    var stack := roots;
    forall x | x in roots && x in installed ensures Reachable(installed, roots, x) {
      assert Chain(installed, roots, [x]);
    }
    while stack != []
      invariant seen <= installed.Keys
      invariant forall x :: x in seen ==> Reachable(installed, roots, x)
      invariant forall x :: x in stack && x in installed ==> Reachable(installed, roots, x)
      invariant forall r :: r in roots ==> Covered(installed, seen, stack, r)
      invariant forall a, b :: a in seen && Requires(installed, a, b) ==> Covered(installed, seen, stack, b)
      decreases installed.Keys - seen, |stack|
    {
      var name := stack[|stack| - 1];
      var rest := stack[..|stack| - 1];
      assert stack == rest + [name];
      if name in seen || name !in installed {
        stack := rest;
        continue;
      }
      assert name in stack;
      ghost var before := seen;
      seen := seen + {name};
      stack := PushRequirements(installed[name], rest);
      forall x | x in stack && x in installed ensures Reachable(installed, roots, x) {
        if x !in rest { ReachableStep(installed, roots, name, x); }
      }
      forall a, b | a in seen && Requires(installed, a, b) ensures Covered(installed, seen, stack, b) {
        if a in before { assert Covered(installed, before, rest + [name], b); }
      }
      forall r | r in roots ensures Covered(installed, seen, stack, r) {
        assert Covered(installed, before, rest + [name], r);
      }
    }
    forall name | Reachable(installed, roots, name) ensures name in seen {
      var path :| Chain(installed, roots, path) && path[|path| - 1] == name;
      ClosedHoldsChain(installed, roots, seen, path, |path| - 1);
    }
  }
}
