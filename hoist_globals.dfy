/** The hoist-globals module pass, `HoistGlobalsPass::runOnModule`: it moves
    every mutable global variable that has a definition into one struct
    global `__hoisted_globals`, redirects every use of such a global to its
    field, erases the originals, and adds `__hoisted_globals_size` and
    `__hoisted_globals_pointer`. */
module HoistGlobals {
  import opened IR
  import opened CompilationUnit
  import opened HoistSpec

  /** The scan loop: the selected globals, their value types and their
      initializers, as three parallel lists in module order, and whether
      anything was selected. Nothing in the module changes. */
  method Scan(m: Module) returns (globals: seq<GlobalId>, types: seq<Ty>, inits: seq<Term>, modified: bool)
    ensures var c := Candidates(m.globals);
            && |globals| == |c| && |types| == |c| && |inits| == |c|
            && (forall i :: 0 <= i < |c| ==>
                  globals[i] == c[i].id && types[i] == c[i].ty && c[i].init == Some(inits[i]))
    ensures modified <==> Candidates(m.globals) != []
  {
    modified := false;
    globals, types, inits := [], [], [];
    var i := 0;
    while i < |m.globals|
      invariant 0 <= i <= |m.globals|
      invariant var c := Candidates(m.globals[..i]);
                && |globals| == |c| && |types| == |c| && |inits| == |c|
                && (forall k :: 0 <= k < |c| ==>
                      globals[k] == c[k].id && types[k] == c[k].ty && c[k].init == Some(inits[k]))
      invariant modified <==> globals != []
    {
      var gv := m.globals[i];
      CandidatesAppend(m.globals[..i], [gv]);
      assert m.globals[..i + 1] == m.globals[..i] + [gv];
      i := i + 1;
      if gv.IsDeclaration() {
        continue;
      }
      if gv.isConstant {
        continue;
      }
      modified := true;
      types := types + [gv.ty];
      inits := inits + [gv.init.value];
      globals := globals + [gv.id];
    }
    assert m.globals[..i] == m.globals;
  }

  /** The rewrite loop: for the k-th global of the saved list, every use is
      replaced by the address of field k of `hoisted`, and the global, left
      without uses, is erased. `field` ends at the number of globals visited. */
  method RewriteAndErase(m: Module, globals: seq<GlobalId>, hoisted: GlobalId) returns (field: nat)
    requires m.Valid()
    requires Distinct(globals)
    requires forall k :: 0 <= k < |globals| ==> globals[k] in IdsOf(m.globals)
    requires hoisted in IdsOf(m.globals) && hoisted !in globals
    modifies m
    ensures m.Valid()
    ensures field == |globals|
    ensures m.globals == RewriteGlobals(old(m.globals), globals, hoisted)
    ensures m.functions == RewriteFunctions(old(m.functions), globals, hoisted)
    ensures m.nextId == old(m.nextId)
  {
    ghost var g0, f0 := m.globals, m.functions;
    RewriteNothing(g0, f0, hoisted);
    assert hoisted < m.nextId by {
      var j :| 0 <= j < |g0| && IdsOf(g0)[j] == hoisted;
    }
    field := 0;
    var i := 0;
    while i < |globals|
      invariant 0 <= i <= |globals|
      invariant field == i
      invariant m.Valid()
      invariant m.globals == RewriteGlobals(g0, globals[..i], hoisted)
      invariant m.functions == RewriteFunctions(f0, globals[..i], hoisted)
      invariant m.nextId == old(m.nextId)
    {
      var gv := globals[i];
      assert globals[..i + 1] == globals[..i] + [gv];
      var gep := FieldAddress(hoisted, field);
      field := field + 1;
      FieldAddressMentions(hoisted, i, gv);
      assert gv in IdsOf(m.globals) by {
        RewriteGlobalsIds(g0, globals[..i], hoisted);
        assert gv in IdsOf(g0);
        assert gv !in globals[..i];
      }
      m.ReplaceAllUsesWith(gv, gep);
      assert !m.HasUses(gv);
      m.EraseGlobal(gv);
      RewriteGlobalsStep(g0, globals[..i], gv, hoisted);
      RewriteFunctionsStep(f0, globals[..i], gv, hoisted);
      i := i + 1;
    }
    assert globals[..i] == globals;
  }

  /** `HoistGlobalsPass::runOnModule`. `storeSize` is the target's
      `DataLayout::getTypeStoreSize`. The result says whether the module
      changed: it did iff some global was selected, and then the module is
      exactly the unit `HoistedGlobals`/`HoistedFunctions` describe. */
  method RunOnModule(m: Module, storeSize: Ty -> nat) returns (modified: bool)
    requires m.Valid()
    modifies m
    ensures m.Valid()
    ensures modified <==> Candidates(old(m.globals)) != []
    ensures !modified ==>
      m.globals == old(m.globals) && m.functions == old(m.functions) && m.nextId == old(m.nextId)
    ensures modified ==>
      && m.globals == HoistedGlobals(old(m.globals), old(m.nextId), storeSize)
      && m.functions == HoistedFunctions(old(m.functions), old(m.globals), old(m.nextId))
      && m.nextId == old(m.nextId) + 3
  {
    var globals, types, inits;
    globals, types, inits, modified := Scan(m);
    if !modified {
      return false;
    }

    ghost var g0 := m.globals;
    ghost var c := Candidates(g0);
    assert globals == IdsOf(c);
    assert types == TypesOf(c);
    assert inits == InitsOf(c);
    CandidatesUnique(g0);
    CandidateIdsBelow(g0, m.nextId);

    var structTy := StructTy(StructName, types);
    var structInit := Aggregate(inits);
    forall y: GlobalId | Mentions(structInit, y) ensures y < m.nextId {
      AggregateUses(g0, m.functions, y);
    }
    var hoistedStruct := m.AddGlobal(structTy, false, ExternalLinkage, structInit, HoistedName);

    var rawsize := storeSize(structTy);
    var sizeInit := Int(Trunc32(rawsize));
    var hoistedSize := m.AddGlobal(Int32, true, ExternalLinkage, sizeInit, SizeName);
    assert m.globals == g0 + [
      Global(hoistedStruct, HoistedName, structTy, false, ExternalLinkage, Some(structInit)),
      Global(hoistedSize, SizeName, Int32, true, ExternalLinkage, Some(sizeInit))
    ];

    IdsOfAppend(g0, m.globals[|g0|..]);
    assert IdsOf(m.globals)[|g0|] == hoistedStruct;
    var field := RewriteAndErase(m, globals, hoistedStruct);

    var pointerTy := PtrTy(structTy);
    var hoistedPointer := m.AddGlobal(pointerTy, false, ExternalLinkage, Ref(hoistedStruct), PointerName);
    HoistedInPassOrder(g0, hoistedStruct, storeSize);
    return true;
  }
}
