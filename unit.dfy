/** The compilation unit the pass edits in place (an `llvm::Module`): its list
    of global variables, its function bodies, and the editing operations the
    pass calls on it. */
module CompilationUnit {
  import opened IR

  /** The identities of gs, in order. */
  function IdsOf(gs: seq<Global>): seq<GlobalId> {
    seq(|gs|, i requires 0 <= i < |gs| => gs[i].id)
  }

  lemma IdsOfAppend(a: seq<Global>, b: seq<Global>)
    ensures IdsOf(a + b) == IdsOf(a) + IdsOf(b)
  {
  }

  lemma IdsOfCons(gs: seq<Global>)
    requires gs != []
    ensures IdsOf(gs) == [gs[0].id] + IdsOf(gs[1..])
  {
  }

  /** Every global of gs was created before n. */
  predicate IdsBelow(gs: seq<Global>, n: GlobalId) {
    forall i :: 0 <= i < |gs| ==> gs[i].id < n
  }

  /** No two globals of the unit are the same object. */
  predicate UniqueIds(gs: seq<Global>) {
    Distinct(IdsOf(gs))
  }

  /** True iff some initializer in gs or some instruction in fs uses x. */
  predicate IsUsed(gs: seq<Global>, fs: seq<Function>, x: GlobalId) {
    (exists i :: 0 <= i < |gs| && InitMentions(gs[i], x)) ||
    (exists i :: 0 <= i < |fs| && BodyMentions(fs[i], x))
  }

  function SubstInit(g: Global, x: GlobalId, r: Term): Global {
    g.(init := if g.init.Some? then Some(Subst(g.init.value, x, r)) else None)
  }

  function SubstGlobals(gs: seq<Global>, x: GlobalId, r: Term): seq<Global> {
    seq(|gs|, i requires 0 <= i < |gs| => SubstInit(gs[i], x, r))
  }

  function SubstFunction(f: Function, x: GlobalId, r: Term): Function {
    f.(body := seq(|f.body|, i requires 0 <= i < |f.body| => Subst(f.body[i], x, r)))
  }

  function SubstFunctions(fs: seq<Function>, x: GlobalId, r: Term): seq<Function> {
    seq(|fs|, i requires 0 <= i < |fs| => SubstFunction(fs[i], x, r))
  }

  /** The global list without the global x. */
  function RemoveGlobal(gs: seq<Global>, x: GlobalId): seq<Global> {
    if gs == [] then []
    else if gs[0].id == x then RemoveGlobal(gs[1..], x)
    else [gs[0]] + RemoveGlobal(gs[1..], x)
  }

  /** Erasing x keeps every other global, in order, and nothing else. */
  lemma {:induction false} RemoveGlobalMembers(gs: seq<Global>, x: GlobalId)
    ensures forall g :: g in RemoveGlobal(gs, x) <==> g in gs && g.id != x
    ensures forall y :: y in IdsOf(RemoveGlobal(gs, x)) <==> y in IdsOf(gs) && y != x
  {
    if gs != [] {
      RemoveGlobalMembers(gs[1..], x);
      assert gs == [gs[0]] + gs[1..];
      assert IdsOf(gs) == [gs[0].id] + IdsOf(gs[1..]);
      if gs[0].id != x {
        assert IdsOf([gs[0]] + RemoveGlobal(gs[1..], x)) == [gs[0].id] + IdsOf(RemoveGlobal(gs[1..], x));
      }
    }
  }

  /** Substitution changes initializers only, so the globals stay the same
      objects with the same name, type, constness and linkage. */
  lemma SubstGlobalsIds(gs: seq<Global>, x: GlobalId, r: Term)
    ensures IdsOf(SubstGlobals(gs, x, r)) == IdsOf(gs)
    ensures |SubstGlobals(gs, x, r)| == |gs|
    ensures forall i :: 0 <= i < |gs| ==> SubstGlobals(gs, x, r)[i].(init := gs[i].init) == gs[i]
  {
  }

  /** After a `replaceAllUsesWith(x, r)` with an r that does not use x, nothing uses x. */
  lemma SubstLeavesNoUse(gs: seq<Global>, fs: seq<Function>, x: GlobalId, r: Term)
    requires !Mentions(r, x)
    ensures !IsUsed(SubstGlobals(gs, x, r), SubstFunctions(fs, x, r), x)
  {
    var gs' := SubstGlobals(gs, x, r);
    forall i | 0 <= i < |gs'| ensures !InitMentions(gs'[i], x) {
      if gs[i].init.Some? {
        SubstClears(gs[i].init.value, x, r);
      }
    }
    var fs' := SubstFunctions(fs, x, r);
    forall i, j | 0 <= i < |fs'| && 0 <= j < |fs'[i].body|
      ensures !Mentions(fs'[i].body[j], x)
    {
      SubstClears(fs[i].body[j], x, r);
    }
  }

  /** Dropping globals from a list without repetitions keeps it without repetitions. */
  lemma {:induction false} RemoveGlobalUnique(gs: seq<Global>, x: GlobalId)
    requires UniqueIds(gs)
    ensures UniqueIds(RemoveGlobal(gs, x))
  {
    if gs != [] {
      IdsOfCons(gs);
      DistinctTail(IdsOf(gs));
      RemoveGlobalUnique(gs[1..], x);
      if gs[0].id != x {
        var rest := RemoveGlobal(gs[1..], x);
        RemoveGlobalMembers(gs[1..], x);
        IdsOfAppend([gs[0]], rest);
        DistinctCons(gs[0].id, IdsOf(rest));
      }
    }
  }

  /** Every global used by an initializer of gs or a body of fs was created before n. */
  ghost predicate UsesBelow(gs: seq<Global>, fs: seq<Function>, n: GlobalId) {
    forall y: GlobalId :: IsUsed(gs, fs, y) ==> y < n
  }

  /** Appending a global adds only the uses of its own initializer. */
  lemma AppendGlobalUses(gs: seq<Global>, fs: seq<Function>, g: Global, y: GlobalId)
    requires IsUsed(gs + [g], fs, y)
    ensures IsUsed(gs, fs, y) || InitMentions(g, y)
  {
    var gs' := gs + [g];
    if i :| 0 <= i < |gs'| && InitMentions(gs'[i], y) {
      if i < |gs| {
        assert InitMentions(gs[i], y);
      }
    }
  }

  /** Erasing a global adds no use. */
  lemma RemoveGlobalUses(gs: seq<Global>, fs: seq<Function>, x: GlobalId, y: GlobalId)
    requires IsUsed(RemoveGlobal(gs, x), fs, y)
    ensures IsUsed(gs, fs, y)
  {
    var rs := RemoveGlobal(gs, x);
    RemoveGlobalMembers(gs, x);
    if i :| 0 <= i < |rs| && InitMentions(rs[i], y) {
      assert rs[i] in gs;
      var j :| 0 <= j < |gs| && gs[j] == rs[i];
      assert InitMentions(gs[j], y);
    }
  }

  /** After `replaceAllUsesWith(x, r)` a global is used only if it was used
      before and is not x, or if r uses it. */
  lemma SubstUses(gs: seq<Global>, fs: seq<Function>, x: GlobalId, r: Term, y: GlobalId)
    requires IsUsed(SubstGlobals(gs, x, r), SubstFunctions(fs, x, r), y)
    ensures (y != x && IsUsed(gs, fs, y)) || Mentions(r, y)
  {
    var gs' := SubstGlobals(gs, x, r);
    var fs' := SubstFunctions(fs, x, r);
    if i :| 0 <= i < |gs'| && InitMentions(gs'[i], y) {
      SubstMentions(gs[i].init.value, x, r, y);
      assert y != x && Mentions(gs[i].init.value, y) ==> InitMentions(gs[i], y);
    } else {
      var i, j :| 0 <= i < |fs'| && 0 <= j < |fs'[i].body| && Mentions(fs'[i].body[j], y);
      SubstMentions(fs[i].body[j], x, r, y);
      assert y != x && Mentions(fs[i].body[j], y) ==> BodyMentions(fs[i], y);
    }
  }

  /** An `llvm::Module`: globals in module order, the function bodies that hold
      the remaining use sites, and the next fresh global identity. */
  class Module {
    var globals: seq<Global>
    var functions: seq<Function>
    var nextId: GlobalId

    /** Every global is a distinct object that was created before nextId,
        and every global that is used was created before nextId too, so a
        new global starts without uses. */
    ghost predicate Valid()
      reads this
    {
      && UniqueIds(globals)
      && IdsBelow(globals, nextId)
      && UsesBelow(globals, functions, nextId)
    }

    /** A module holding the given globals and functions; identities from
        nextId on are free. */
    constructor (globals: seq<Global>, functions: seq<Function>, nextId: GlobalId)
      requires UniqueIds(globals)
      requires IdsBelow(globals, nextId)
      requires UsesBelow(globals, functions, nextId)
      ensures Valid()
      ensures this.globals == globals && this.functions == functions && this.nextId == nextId
    {
      this.globals := globals;
      this.functions := functions;
      this.nextId := nextId;
    }

    predicate HasUses(x: GlobalId)
      reads this
    {
      IsUsed(globals, functions, x)
    }

    /** `new GlobalVariable(M, ty, isConstant, linkage, init, name, ...)`: a
        fresh global appended to the module's global list. Its initializer
        can only use globals that already exist. */
    method AddGlobal(ty: Ty, isConstant: bool, linkage: Linkage, init: Term, name: string)
      returns (id: GlobalId)
      requires Valid()
      requires forall y: GlobalId :: Mentions(init, y) ==> y < nextId
      modifies this
      ensures Valid()
      ensures id == old(nextId) && nextId == old(nextId) + 1
      ensures globals == old(globals) + [Global(id, name, ty, isConstant, linkage, Some(init))]
      ensures functions == old(functions)
    {
      id := nextId;
      var g := Global(id, name, ty, isConstant, linkage, Some(init));
      assert IdsOf(globals + [g]) == IdsOf(globals) + [id];
      forall y: GlobalId | IsUsed(globals + [g], functions, y) ensures y < nextId + 1 {
        AppendGlobalUses(globals, functions, g, y);
      }
      globals := globals + [g];
      nextId := nextId + 1;
    }

    /** `x->replaceAllUsesWith(r)`: every use of x, in every initializer
        (x's own included) and every function body, becomes r. LLVM refuses
        a replacement that itself uses x; r can only use globals that exist. */
    method ReplaceAllUsesWith(x: GlobalId, r: Term)
      requires Valid()
      requires !Mentions(r, x)
      requires forall y: GlobalId :: Mentions(r, y) ==> y < nextId
      modifies this
      ensures Valid() && !HasUses(x)
      ensures globals == SubstGlobals(old(globals), x, r)
      ensures IdsOf(globals) == IdsOf(old(globals))
      ensures functions == SubstFunctions(old(functions), x, r)
      ensures nextId == old(nextId)
    {
      SubstGlobalsIds(globals, x, r);
      SubstLeavesNoUse(globals, functions, x, r);
      forall y: GlobalId | IsUsed(SubstGlobals(globals, x, r), SubstFunctions(functions, x, r), y)
        ensures y < nextId
      {
        SubstUses(globals, functions, x, r, y);
      }
      globals := SubstGlobals(globals, x, r);
      functions := SubstFunctions(functions, x, r);
    }

    /** `x->eraseFromParent()`: x leaves the module; LLVM requires that it is
        in the module and has no uses left. */
    method EraseGlobal(x: GlobalId)
      requires Valid()
      requires x in IdsOf(globals)
      requires !HasUses(x)
      modifies this
      ensures Valid()
      ensures globals == RemoveGlobal(old(globals), x)
      ensures functions == old(functions) && nextId == old(nextId)
    {
      RemoveGlobalUnique(globals, x);
      RemoveGlobalMembers(globals, x);
      forall y: GlobalId | IsUsed(RemoveGlobal(globals, x), functions, y) ensures y < nextId {
        RemoveGlobalUses(globals, functions, x, y);
      }
      globals := RemoveGlobal(globals, x);
    }
  }
}
