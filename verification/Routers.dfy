/** One method's table of router.go, a trie and a static map, and the lookup in both. */
module Routers {
  import opened Wrappers
  import opened Patterns
  import opened Trees
  import opened Lookup
  import opened Tries
  import opened Paths

  /** A route found for a request. */
  datatype Found = Found(chain: Chain, fullPath: string, binds: seq<Binding>)

  /** What search is given of a cleaned path. */
  function Strip(p: string): (s: string) {
    if |p| > 1 && p[0] == '/' then p[1..] else p
  }

  /** The trie walk of find: clean the path, then the root or a search. */
  function Walk(t: Tree, path: string): (r: Option<Found>)
    requires [] in t
  {
    CleanIsClean(path);
    var p := Clean(path);
    if p == "/" then
      if t[[]].handlers.Some? then Some(Found(t[[]].handlers.value, t[[]].fullPath, [])) else None
    else
      match Resolve(t, [], Strip(p))
      case None => None
      case Some(hit) =>
        if hit.key in t && t[hit.key].handlers.Some? then
          Some(Found(t[hit.key].handlers.value, t[hit.key].fullPath, hit.binds))
        else None
  }

  /** The O(1) map holds exactly the static routes of the tree. */
  ghost predicate StaticsAgree(m: map<string, Route>, t: Tree) {
    forall p ::
      && (p in m <==> IsPattern(p) && IsStatic(p) && KeyOf(p) in RouteKeys(t))
      && (p in m ==> m[p] == Routes(t)[KeyOf(p)] && m[p].fullPath == p)
  }

  /** Registering a route keeps the static map exact. */
  lemma StaticsAfter(m: map<string, Route>, t: Tree, t': Tree, path: string, chain: Chain)
    requires StaticsAgree(m, t) && IsPattern(path)
    requires Routes(t') == Routes(t)[KeyOf(path) := Route(chain, path)]
    ensures StaticsAgree(if IsStatic(path) then m[path := Route(chain, path)] else m, t')
  {
    var m' := if IsStatic(path) then m[path := Route(chain, path)] else m;
    assert RouteKeys(t') == RouteKeys(t) + {KeyOf(path)};
    forall p
      ensures p in m' <==> IsPattern(p) && IsStatic(p) && KeyOf(p) in RouteKeys(t')
      ensures p in m' ==> m'[p] == Routes(t')[KeyOf(p)] && m'[p].fullPath == p
    {
      if IsPattern(p) && IsStatic(p) { SameStaticKey(p, path); }
    }
  }

  /** Only a static pattern has a static key, and only its own. */
  lemma SameStaticKey(p: string, path: string)
    requires IsPattern(p) && IsPattern(path) && IsStatic(p)
    ensures KeyOf(p) == KeyOf(path) ==> p == path
  {
    StaticKey(p[1..]);
    StaticKey(path[1..]);
    assert IsStatic(p[1..]);
    if KeyOf(p) == KeyOf(path) {
      assert Bytes(p[1..]) == Bytes(path[1..]);
      forall i | 0 <= i < |p| - 1 ensures p[1..][i] == path[1..][i] {
        assert Bytes(p[1..])[i] == Bytes(path[1..])[i];
      }
      assert p[1..] == path[1..];
      assert p == ['/'] + p[1..] && path == ['/'] + path[1..];
    }
  }

  /** A walk that comes out on a static pattern read exactly its text. */
  lemma WalkedToKey(t: Tree, path: string, text: string)
    requires ValidTree(t) && Registered(t) && Clean(path) != "/"
    requires Walk(t, path).Some? && Walk(t, path).value.binds == [] && Walk(t, path).value.fullPath != ""
    requires KeyOf(Walk(t, path).value.fullPath) == Bytes(text)
    ensures Strip(Clean(path)) == text
  {
    CleanIsClean(path);
    var s := Strip(Clean(path));
    RegisteredServes(t);
    ResolveSound(t, [], s);
    var hit := Resolve(t, [], s).value;
    assert hit.key in RouteKeys(t) && hit.key[0..] == hit.key;
    assert Bytes(text) == Bytes(text) + [];
    UnmatchBytes(text, [], s, []);
    assert s == text + s[|text|..];
  }

  lemma StaticRouteKey(t: Tree, path: string)
    requires IsPattern(path) && IsStatic(path)
    ensures KeyOf(path) == Bytes(path[1..])
  {
    StaticKey(path[1..]);
    assert IsStatic(path[1..]);
  }

  lemma CleanWalk(t: Tree, path: string)
    requires ValidTree(t) && IsPattern(path) && IsStatic(path) && KeyOf(path) in RouteKeys(t)
    requires Clean(path) == path
    ensures Walk(t, path) == Some(Found(t[KeyOf(path)].handlers.value, t[KeyOf(path)].fullPath, []))
  {
    StaticRouteKey(t, path);
    if path != "/" {
      assert [] + Bytes(path[1..]) == Bytes(path[1..]);
      StaticWins(t, [], path[1..]);
    }
  }

  lemma WalkIsClean(t: Tree, path: string)
    requires ValidTree(t) && Registered(t) && IsPattern(path) && IsStatic(path)
    requires Walk(t, path).Some? && Walk(t, path).value.binds == [] && Walk(t, path).value.fullPath == path
    ensures Clean(path) == path
  {
    StaticRouteKey(t, path);
    CleanIsClean(path);
    if Clean(path) == "/" {
      assert [] in RouteKeys(t) && KeyOf(path) == [];
    } else {
      WalkedToKey(t, path, path[1..]);
    }
  }

  /** The static map and the trie walk agree on a static route exactly when its
      path needs no cleaning. */
  lemma StaticMapAgrees(m: map<string, Route>, t: Tree, path: string)
    requires ValidTree(t) && Registered(t) && StaticsAgree(m, t) && path in m
    ensures Walk(t, path) == Some(Found(m[path].chain, path, [])) <==> Clean(path) == path
  {
    if Clean(path) == path { CleanWalk(t, path); }
    if Walk(t, path) == Some(Found(m[path].chain, path, [])) { WalkIsClean(t, path); }
  }

  /** What one method's routes look like from outside: the O(1) map and the tree. */
  datatype Table = Table(statics: map<string, Route>, tree: Tree)

  ghost predicate GoodTable(tb: Table) {
    ValidTree(tb.tree) && Registered(tb.tree) && StaticsAgree(tb.statics, tb.tree)
  }

  /** find: the static map first, then the trie. */
  function LookUp(tb: Table, path: string): (r: Option<Found>)
    requires [] in tb.tree
  {
    if path in tb.statics then Some(Found(tb.statics[path].chain, tb.statics[path].fullPath, []))
    else Walk(tb.tree, path)
  }

  /** What a route found for a path may be: registered, with its own chain, and matching the
      cleaned path with exactly these bindings; a catch-all binds the name it got first. */
  ghost predicate GoodFind(t: Tree, path: string, f: Found) {
    f.fullPath != "" &&
    var k := KeyOf(f.fullPath);
    && k in Routes(t) && Routes(t)[k] == Route(f.chain, f.fullPath)
    && Matches(k, if Clean(path) == "/" then "" else Strip(Clean(path)), f.binds)
    && (EndsWild(k) ==> f.binds != [] && k in Binders(t) && f.binds[|f.binds| - 1].key == Binders(t)[k])
  }

  /** A route that search can find on the cleaned path. */
  ghost predicate Reachable(t: Tree, path: string) {
    if Clean(path) == "/" then [] in RouteKeys(t)
    else exists k, binds :: Findable(t, [], Strip(Clean(path)), k, binds)
  }

  /** The walk finds a route if and only if one can be found, and it is one that matches. */
  lemma WalkFinds(t: Tree, path: string)
    requires ValidTree(t) && Registered(t)
    ensures Walk(t, path).Some? <==> Reachable(t, path)
    ensures Walk(t, path).Some? ==> GoodFind(t, path, Walk(t, path).value)
  {
    CleanIsClean(path);
    var s := Strip(Clean(path));
    if Clean(path) == "/" {
      RootFinds(t, path);
    } else {
      RegisteredServes(t);
      ResolveSound(t, [], s);
      SearchComplete(t, [], s);
      if Resolve(t, [], s).Some? {
        HitIsGood(t, path, Resolve(t, [], s).value);
      }
    }
  }

  lemma RootFinds(t: Tree, path: string)
    requires ValidTree(t) && Registered(t) && Clean(path) == "/"
    ensures Walk(t, path).Some? <==> [] in RouteKeys(t)
    ensures Walk(t, path).Some? ==> GoodFind(t, path, Walk(t, path).value)
  {
    if [] in RouteKeys(t) {
      assert Routes(t)[[]] == Route(t[[]].handlers.value, t[[]].fullPath);
    }
  }

  lemma HitIsGood(t: Tree, path: string, hit: Hit)
    requires Registered(t) && Clean(path) != "/" && SoundHit(t, [], Strip(Clean(path)), hit)
    ensures GoodFind(t, path, Found(t[hit.key].handlers.value, t[hit.key].fullPath, hit.binds))
  {
    assert hit.key in RouteKeys(t) && hit.key[0..] == hit.key;
    assert Routes(t)[hit.key] == Route(t[hit.key].handlers.value, t[hit.key].fullPath);
  }

  /** find answers a path of the static map with the route registered under it, and any other
      exactly if search can find a route on the cleaned path, with one that matches. */
  lemma LookUpFinds(tb: Table, path: string)
    requires GoodTable(tb)
    ensures var r := LookUp(tb, path);
      && (path in tb.statics ==>
            r.Some? && r.value == Found(Routes(tb.tree)[KeyOf(path)].chain, path, []))
      && (path !in tb.statics ==> (r.Some? <==> Reachable(tb.tree, path)))
      && (path !in tb.statics && r.Some? ==> GoodFind(tb.tree, path, r.value))
  {
    WalkFinds(tb.tree, path);
  }

  /** For a clean path the static map is only a shortcut. */
  lemma StaticMapIsShortcut(tb: Table, path: string)
    requires GoodTable(tb) && Clean(path) == path
    ensures LookUp(tb, path) == Walk(tb.tree, path)
  {
    if path in tb.statics { StaticMapAgrees(tb.statics, tb.tree, path); }
  }

  /** The routes of one method: trie and static map, updated together. */
  class MethodTable {
    const trie: Trie
    var statics: map<string, Route>

    ghost predicate Valid()
      reads this, trie, trie.nodes
    {
      trie.Valid() && Registered(trie.tree) && StaticsAgree(statics, trie.tree)
    }

    ghost function Value(): (tb: Table)
      reads this, trie
    {
      Table(statics, trie.tree)
    }

    constructor ()
      ensures Valid() && fresh(trie) && fresh(trie.nodes)
      ensures Routes(trie.tree) == map[]
    {
      var t := new Trie();
      trie := t;
      statics := map[];
    }

    /** addRoute for this method; false stands for its panics. */
    method AddRoute(path: string, chain: Chain) returns (ok: bool)
      requires Valid()
      modifies this, trie, trie.nodes
      ensures Valid() && (forall m :: m in trie.nodes ==> m in old(trie.nodes) || fresh(m))
      ensures ok <==> IsPattern(path) && ValidPattern(path)
      ensures Routes(trie.tree) ==
              if ok then Routes(old(trie.tree))[KeyOf(path) := Route(chain, path)] else Routes(old(trie.tree))
      ensures OrderKept(old(trie.tree), trie.tree)
    {
      if path == "" || path[0] != '/' {
        return false;
      }
      ok := ValidatePath(path);
      if ok {
        Insert(path, chain);
      }
    }

    /** Past validation: the trie, and the static map if the pattern is static. */
    method Insert(path: string, chain: Chain)
      requires Valid() && IsPattern(path)
      modifies this, trie, trie.nodes
      ensures Valid() && (forall m :: m in trie.nodes ==> m in old(trie.nodes) || fresh(m))
      ensures Routes(trie.tree) == Routes(old(trie.tree))[KeyOf(path) := Route(chain, path)]
      ensures OrderKept(old(trie.tree), trie.tree)
    {
      trie.Register(path, chain);
      StaticsAfter(statics, old(trie.tree), trie.tree, path, chain);
      KeepStatic(path, chain);
    }

    /** The static map follows the trie. */
    method KeepStatic(path: string, chain: Chain)
      modifies this`statics
      ensures statics == if IsStatic(path) then old(statics)[path := Route(chain, path)] else old(statics)
    {
      var isStatic := IsStaticPath(path);
      if isStatic {
        statics := statics[path := Route(chain, path)];
      }
    }

    /** find: parameters are pushed onto params exactly as bound, or left alone. */
    method Find(path: string, params: Params) returns (handlers: Option<Chain>, fullPath: string)
      requires Valid()
      modifies params
      ensures [] in trie.tree
      ensures match LookUp(Value(), path)
              case None => handlers == None && params.list == old(params.list)
              case Some(f) =>
                && handlers == Some(f.chain) && fullPath == f.fullPath
                && params.list == old(params.list) + f.binds
      ensures path !in statics ==> (handlers.Some? <==> Reachable(trie.tree, path))
      ensures path !in statics && handlers.Some? ==>
                exists binds :: params.list == old(params.list) + binds
                  && GoodFind(trie.tree, path, Found(handlers.value, fullPath, binds))
      ensures handlers.None? ==> params.list == old(params.list)
    {
      LookUpFinds(Value(), path);
      if path in statics {
        return Some(statics[path].chain), statics[path].fullPath;
      }
      var p := CleanPath(path);
      CleanIsClean(path);
      if p == "/" {
        trie.RootAgrees();
        return trie.root.handlers, trie.root.fullPath;
      }
      if |p| > 1 && p[0] == '/' {
        p := p[1..];
      }
      RegisteredServes(trie.tree);
      trie.RootAgrees();
      handlers, fullPath := trie.Search(trie.root, p, params);
    }
  }
}
