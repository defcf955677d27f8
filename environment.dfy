/**
 * `Env`: a scope's own name-to-value map and an optional parent scope.
 * The chain of parents is finite and acyclic by construction.
 */
module Environment {
  import opened Wrappers
  import opened Values

  datatype Env = Env(local: map<string, Value>, parent: Option<Env>)

  /** `Env::get`: the local binding if there is one, else whatever the parent chain yields. */
  function Get(env: Env, key: string): (r: Option<Value>)
    ensures key in env.local ==> r == Some(env.local[key])
    ensures key !in env.local && env.parent.None? ==> r.None?
    decreases env
  {
    if key in env.local then Some(env.local[key])
    else
      match env.parent
      case Some(p) => Get(p, key)
      case None => None
  }

  /** The maps of the chain, innermost first. */
  function Scopes(env: Env): (s: seq<map<string, Value>>)
    ensures s != [] && s[0] == env.local
    decreases env
  {
    [env.local] + match env.parent
      case None => []
      case Some(p) => Scopes(p)
  }

  /** `key` is bound in scope `i` of the chain and in none nearer. */
  ghost predicate BoundFirstIn(env: Env, key: string, i: nat) {
    var s := Scopes(env);
    i < |s| && key in s[i] && forall j :: 0 <= j < i ==> key !in s[j]
  }

  /**
   * Lookup resolves to the nearest scope of the chain that binds the name,
   * and fails exactly when no scope binds it.
   */
  lemma {:induction false} GetNearest(env: Env, key: string)
    ensures Get(env, key).None? <==> forall i :: 0 <= i < |Scopes(env)| ==> key !in Scopes(env)[i]
    ensures Get(env, key).Some? ==>
      exists i: nat :: BoundFirstIn(env, key, i) && Get(env, key).value == Scopes(env)[i][key]
    decreases env
  {
    if key in env.local {
      assert BoundFirstIn(env, key, 0);
    } else if env.parent.Some? {
      var p := env.parent.value;
      GetNearest(p, key);
      assert Scopes(env) == [env.local] + Scopes(p);
      if Get(p, key).Some? {
        var i: nat :| BoundFirstIn(p, key, i) && Get(p, key).value == Scopes(p)[i][key];
        assert BoundFirstIn(env, key, i + 1);
      }
    }
  }

  /** The `define` write: insert or overwrite `name` in the local map only. */
  function Define(env: Env, name: string, v: Value): (e: Env)
    ensures e.parent == env.parent && e.local.Keys == env.local.Keys + {name}
    ensures name in e.local && e.local[name] == v
    ensures forall k :: k in env.local && k != name ==> e.local[k] == env.local[k]
  {
    env.(local := env.local[name := v])
  }

  /**
   * After a define the name looks up to the new value, every other name
   * looks up as before, and the outer scopes are untouched.
   */
  lemma DefineEffect(env: Env, name: string, v: Value)
    ensures Get(Define(env, name, v), name) == Some(v)
    ensures forall k :: k != name ==> Get(Define(env, name, v), k) == Get(env, k)
    ensures Scopes(Define(env, name, v))[1..] == Scopes(env)[1..]
  {
    var e := Define(env, name, v);
    assert Scopes(e) == [e.local] + Scopes(env)[1..];
  }
}
