/** Small compilation units and the unit the model of the pass makes of each. */
module Scenarios {
  import opened IR
  import opened CompilationUnit
  import opened HoistSpec
  import opened HoistGlobals

  const X: Global := Global(0, "x", Int32, false, CommonLinkage, Some(Int(5)))
  const P: Global := Global(1, "p", PtrTy(Int32), false, CommonLinkage, Some(Ref(0)))
  const LoadThroughP: Function := Function("main", [Expr(OtherOp("load"), [Ref(1)])])

  /** `int x = 5; int *p = &x;` and a function that loads through p: both
      globals are hoisted, p's initializer inside the aggregate becomes the
      address of field 0, and the load reads field 1. */
  lemma ScenarioReferenceInInitializer(storeSize: Ty -> nat)
    ensures var sty := StructTy(StructName, [Int32, PtrTy(Int32)]);
            HoistedGlobals([X, P], 2, storeSize) == [
              Global(2, HoistedName, sty, false, ExternalLinkage,
                     Some(Aggregate([Int(5), FieldAddress(2, 0)]))),
              Global(3, SizeName, Int32, true, ExternalLinkage, Some(Int(Trunc32(storeSize(sty))))),
              Global(4, PointerName, PtrTy(sty), false, ExternalLinkage, Some(Ref(2)))]
    ensures HoistedFunctions([LoadThroughP], [X, P], 2)
            == [Function("main", [Expr(OtherOp("load"), [FieldAddress(2, 1)])])]
  {
    var gs := [X, P];
    assert gs[1..] == [P] && [P][1..] == [];
    assert Candidates(gs) == gs;
    assert IdsOf(gs) == [0, 1];
    assert TypesOf(gs) == [Int32, PtrTy(Int32)];
    assert InitsOf(gs) == [Int(5), Ref(0)];
    var rw := Rewrite(Aggregate([Int(5), Ref(0)]), [0, 1], 2);
    assert rw.elements[0] == Int(5);
    assert rw.elements[1] == FieldAddress(2, 0);
    assert rw == Aggregate([Int(5), FieldAddress(2, 0)]);
    assert RewriteGlobals([P], [0, 1], 2) == [];
    assert RewriteGlobals(gs, [0, 1], 2) == [];
    var load := Rewrite(LoadThroughP.body[0], [0, 1], 2);
    assert load.operands[0] == FieldAddress(2, 1);
    assert load == Expr(OtherOp("load"), [FieldAddress(2, 1)]);
    assert RewriteFunction(LoadThroughP, [0, 1], 2).body == [load];
  }

  /** A unit whose only global is `const int z = 9;` and a declaration
      `extern int e;`: nothing is selected and the pass changes nothing. */
  method ScenarioNothingToHoist(storeSize: Ty -> nat) {
    var z := Global(0, "z", Int32, true, InternalLinkage, Some(Int(9)));
    var e := Global(1, "e", Int32, false, ExternalLinkage, None);
    assert IdsOf([z, e]) == [0, 1];
    var m := new Module([z, e], [], 2);
    assert Candidates(m.globals) == [];
    var modified := RunOnModule(m, storeSize);
    assert !modified;
    assert m.globals == [z, e] && m.nextId == 2;
  }

  /** `int unused = 1;` next to `const int k = 2;`: the unused global is still
      hoisted, into field 0, and k stays in the unit. */
  method ScenarioUnusedGlobal(storeSize: Ty -> nat) {
    var u := Global(0, "unused", Int32, false, CommonLinkage, Some(Int(1)));
    var k := Global(1, "k", Int32, true, InternalLinkage, Some(Int(2)));
    assert IdsOf([u, k]) == [0, 1];
    var m := new Module([u, k], [], 5);
    assert [u, k][1..] == [k];
    assert Candidates([u, k]) == [u];
    var modified := RunOnModule(m, storeSize);
    assert modified;
    assert RewriteGlobals([u, k], [0], 5) == [k] by {
      assert [k][1..] == [];
      assert RewriteGlobals([k], [0], 5) == [k];
    }
    assert IdsOf(Candidates([u, k])) == [0];
    assert |m.globals| == 4 && m.globals[0] == k;
    assert m.globals[1].ty == StructTy(StructName, [Int32]);
    assert InitsOf([u]) == [Int(1)];
    assert Rewrite(Aggregate([Int(1)]), [0], 5).elements[0] == Int(1);
    assert Rewrite(Aggregate([Int(1)]), [0], 5) == Aggregate([Int(1)]);
    assert m.globals[1].init == Some(Aggregate([Int(1)]));
  }
}
