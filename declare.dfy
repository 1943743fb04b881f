// How the parser grows the scope tree and the declaration arena: a new child
// scope (children.Add), a new declaration object (new WrapType and its
// subclasses), the final value of a declaration being built, and filing a
// declaration under its name in its scope (types.Add). Each keeps the tree
// well-formed, and each only adds: nothing already filed moves.

module Declare {
  import opened Symbols

  /** A scope keeps its identity when the table grows: its name, parent and
      source type stay, and its children and types only gain entries. */
  ghost predicate ScopeGrows(a: Scope, b: Scope)
  {
    a.name == b.name && a.parent == b.parent && a.sourceType == b.sourceType
    && (forall n :: n in a.children ==> n in b.children && b.children[n] == a.children[n])
    && (forall n :: n in a.types ==> n in b.types && b.types[n] == a.types[n])
  }

  /** b is a's table with things added: old scopes grow, old declarations are
      unchanged. */
  ghost predicate Grows(a: Table, b: Table)
  {
    |a.scopes| <= |b.scopes| && |a.decls| <= |b.decls|
    && (forall i :: 0 <= i < |a.scopes| ==> ScopeGrows(a.scopes[i], b.scopes[i]))
    && b.decls[..|a.decls|] == a.decls
  }

  lemma GrowsTransitive(a: Table, b: Table, c: Table)
    requires Grows(a, b) && Grows(b, c)
    ensures Grows(a, c)
  {
    assert c.decls[..|a.decls|] == c.decls[..|b.decls|][..|a.decls|];
  }

  /** A lookup that succeeded keeps succeeding with the same answer. */
  lemma GrowsKeepsLookups(a: Table, b: Table, ctx: ScopeId, name: string)
    requires Valid(a) && Valid(b) && Grows(a, b) && ctx < |a.scopes|
    ensures FindContext(a, ctx, name).Some? ==> FindContext(b, ctx, name) == FindContext(a, ctx, name)
    ensures name in a.scopes[ctx].types ==>
      name in b.scopes[ctx].types && b.scopes[ctx].types[name] == a.scopes[ctx].types[name]
  {
    assert ScopeGrows(a.scopes[ctx], b.scopes[ctx]);
  }

  /** The declaration at id, in a table that grew. */
  lemma GrowsKeepsDecl(a: Table, b: Table, id: TypeId)
    requires Grows(a, b) && id < |a.decls|
    ensures b.decls[id] == a.decls[id]
  {
    assert b.decls[..|a.decls|][id] == b.decls[id];
  }

  /** new WrapContext() filed under `name` in the children of `parent`. */
  function AddScope(t: Table, parent: ScopeId, name: string, sourceType: Option<TypeId>): (r: Table)
    requires Valid(t) && parent < |t.scopes| && name != "" && name !in t.scopes[parent].children
    requires sourceType.Some? ==> sourceType.value < |t.decls|
    ensures Valid(r) && Grows(t, r)
    ensures |r.scopes| == |t.scopes| + 1 && r.decls == t.decls
    ensures r.scopes[|t.scopes|] == Scope(name, Some(parent), map[], map[], sourceType)
    ensures FindContext(r, parent, name) == Some(|t.scopes|)
  {
    var id := |t.scopes|;
    var p := t.scopes[parent];
    var r := Table(t.scopes[parent := p.(children := p.children[name := id])]
                   + [Scope(name, Some(parent), map[], map[], sourceType)], t.decls);
    AddScopeValid(t, parent, name, sourceType, r);
    r
  }

  lemma AddScopeValid(t: Table, parent: ScopeId, name: string, sourceType: Option<TypeId>, r: Table)
    requires Valid(t) && parent < |t.scopes| && name != "" && name !in t.scopes[parent].children
    requires sourceType.Some? ==> sourceType.value < |t.decls|
    requires var p := t.scopes[parent];
      r == Table(t.scopes[parent := p.(children := p.children[name := |t.scopes|])]
                 + [Scope(name, Some(parent), map[], map[], sourceType)], t.decls)
    ensures Valid(r) && Grows(t, r)
  {
    var id := |t.scopes|;
    forall i | 0 <= i < |r.scopes|
      ensures ScopeOk(r, i)
    {
      if i < id {
        assert ScopeOk(t, i);
        var s := t.scopes[i];
        if i > 0 {
          assert r.scopes[s.parent.value].children[s.name] == i;
        }
        forall n | n in r.scopes[i].children
          ensures i < r.scopes[i].children[n] < |r.scopes|
                  && r.scopes[r.scopes[i].children[n]].name == n
                  && r.scopes[r.scopes[i].children[n]].parent == Some(i)
        {
          if i == parent && n == name {
          } else {
            assert n in s.children;
          }
        }
      }
    }
    forall d | 0 <= d < |r.decls|
      ensures DeclOk(r, d)
    {
      assert DeclOk(t, d);
    }
    forall i | 0 <= i < |t.scopes|
      ensures ScopeGrows(t.scopes[i], r.scopes[i])
    {
    }
    assert r.decls[..|t.decls|] == t.decls;
  }

  /** A new declaration object: appended to the arena, filed nowhere yet. */
  function AddDecl(t: Table, d: Decl): (r: Table)
    requires Valid(t)
    requires d.parentContext.Some? ==> d.parentContext.value < |t.scopes|
    requires d.context < |t.scopes|
    ensures Valid(r) && Grows(t, r)
    ensures r.scopes == t.scopes && r.decls == t.decls + [d]
  {
    var r := Table(t.scopes, t.decls + [d]);
    forall i | 0 <= i < |r.scopes|
      ensures ScopeOk(r, i)
    {
      assert ScopeOk(t, i);
    }
    forall k | 0 <= k < |r.decls|
      ensures DeclOk(r, k)
    {
      if k < |t.decls| {
        assert DeclOk(t, k);
      }
    }
    assert r.decls[..|t.decls|] == t.decls;
    r
  }

  /** The declaration at id takes its final value; its name and parent
      context, by which it may be filed, stay. */
  function SetDecl(t: Table, id: TypeId, d: Decl): (r: Table)
    requires Valid(t) && id < |t.decls|
    requires d.name == t.decls[id].name && d.parentContext == t.decls[id].parentContext
    requires d.context < |t.scopes|
    ensures Valid(r)
    ensures r.scopes == t.scopes && r.decls == t.decls[id := d]
  {
    var r := Table(t.scopes, t.decls[id := d]);
    forall i | 0 <= i < |r.scopes|
      ensures ScopeOk(r, i)
    {
      assert ScopeOk(t, i);
    }
    forall k | 0 <= k < |r.decls|
      ensures DeclOk(r, k)
    {
      assert DeclOk(t, k);
    }
    r
  }

  /** types.Add(name, d) in scope ctx, for a declaration whose parent context
      is ctx. */
  function FileType(t: Table, ctx: ScopeId, id: TypeId): (r: Table)
    requires Valid(t) && ctx < |t.scopes| && id < |t.decls|
    requires t.decls[id].parentContext == Some(ctx)
    requires t.decls[id].name !in t.scopes[ctx].types
    ensures Valid(r) && Grows(t, r)
    ensures r.decls == t.decls && |r.scopes| == |t.scopes|
    ensures t.decls[id].name in r.scopes[ctx].types && r.scopes[ctx].types[t.decls[id].name] == id
    ensures forall i :: 0 <= i < |t.scopes| && i != ctx ==> r.scopes[i] == t.scopes[i]
  {
    var s := t.scopes[ctx];
    var r := Table(t.scopes[ctx := s.(types := s.types[t.decls[id].name := id])], t.decls);
    forall i | 0 <= i < |r.scopes|
      ensures ScopeOk(r, i)
    {
      assert ScopeOk(t, i);
      var si := t.scopes[i];
      if i > 0 {
        assert r.scopes[si.parent.value].children == t.scopes[si.parent.value].children;
      }
      forall n | n in r.scopes[i].children
        ensures i < r.scopes[i].children[n] < |r.scopes|
                && r.scopes[r.scopes[i].children[n]].name == n
                && r.scopes[r.scopes[i].children[n]].parent == Some(i)
      {
        assert n in si.children;
      }
    }
    forall k | 0 <= k < |r.decls|
      ensures DeclOk(r, k)
    {
      assert DeclOk(t, k);
    }
    forall i | 0 <= i < |t.scopes|
      ensures ScopeGrows(t.scopes[i], r.scopes[i])
    {
    }
    assert r.decls[..|t.decls|] == t.decls;
    r
  }
}
