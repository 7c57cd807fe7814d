/** An abstract view of the parts of an LLVM module that the hoist-globals pass
    reads and edits: types, the constant and instruction terms that refer to
    global variables, global variables themselves and function bodies. */
module IR {

  datatype Option<+T> = None | Some(value: T)

  /** The identity of a global variable (the `GlobalVariable *` in LLVM). */
  type GlobalId = nat

  const TwoTo32: nat := 0x1_0000_0000

  /** The value held by `ConstantInt::get(Int32Ty, v)`: only the low 32 bits of v. */
  function Trunc32(v: nat): (r: nat)
    ensures r < TwoTo32
    ensures v < TwoTo32 ==> r == v
  {
    v % TwoTo32
  }

  /** The first position of x in s. */
  function IndexOf<T(==)>(s: seq<T>, x: T): (k: nat)
    requires x in s
    ensures k < |s| && s[k] == x
    ensures forall j :: 0 <= j < k ==> s[j] != x
  {
    if s[0] == x then 0 else 1 + IndexOf(s[1..], x)
  }

  predicate Distinct<T(==)>(s: seq<T>) {
    forall i, j :: 0 <= i < j < |s| ==> s[i] != s[j]
  }

  /** The head of a sequence without repetitions is not in its tail, which
      has no repetitions either. */
  lemma DistinctTail<T>(s: seq<T>)
    requires Distinct(s) && s != []
    ensures s[0] !in s[1..] && Distinct(s[1..])
  {
    forall j | 0 <= j < |s| - 1 ensures s[1..][j] != s[0] {
      assert s[1..][j] == s[j + 1];
    }
  }

  lemma DistinctCons<T>(x: T, s: seq<T>)
    requires x !in s && Distinct(s)
    ensures Distinct([x] + s)
  {
  }

  /** In a sequence without repetitions, the first position of s[k] is k. */
  lemma IndexOfDistinct<T>(s: seq<T>, k: nat)
    requires Distinct(s) && k < |s|
    ensures IndexOf(s, s[k]) == k
  {
  }

  /** Looking x up in p + [y] finds it where it is found in p, and at |p| when
      x is y and does not occur in p. */
  lemma IndexOfAppend<T>(p: seq<T>, y: T, x: T)
    requires x in p + [y]
    ensures x in p ==> IndexOf(p + [y], x) == IndexOf(p, x)
    ensures x !in p ==> x == y && IndexOf(p + [y], x) == |p|
  {
    if x in p {
      assert (p + [y])[IndexOf(p, x)] == x;
    }
  }

  /** The LLVM types the pass deals with; `OtherTy` stands for every other type. */
  datatype Ty =
    | IntTy(bits: nat)
    | PtrTy(pointee: Ty)
    | ArrayTy(element: Ty, count: nat)
    | StructTy(name: string, fields: seq<Ty>)
    | OtherTy(name: string)

  const Int32: Ty := IntTy(32)

  datatype Linkage =
    | ExternalLinkage
    | AvailableExternallyLinkage
    | LinkOnceAnyLinkage
    | LinkOnceODRLinkage
    | WeakAnyLinkage
    | WeakODRLinkage
    | AppendingLinkage
    | InternalLinkage
    | PrivateLinkage
    | ExternalWeakLinkage
    | CommonLinkage

  datatype Opcode = GetElementPtr(inBounds: bool) | OtherOp(name: string)

  /** A constant or an instruction operand tree. `Ref(g)` is the address of
      global g, the only way a term uses a global. */
  datatype Term =
    | Int(value: int)
    | Ref(id: GlobalId)
    | Aggregate(elements: seq<Term>)
    | Expr(op: Opcode, operands: seq<Term>)

  /** A global variable: a declaration when it has no initializer. */
  datatype Global = Global(id: GlobalId, name: string, ty: Ty, isConstant: bool,
                           linkage: Linkage, init: Option<Term>)
  {
    predicate IsDeclaration() {
      init.None?
    }
  }

  /** A function, reduced to the operand trees of its instructions. */
  datatype Function = Function(name: string, body: seq<Term>)

  /** True iff term t uses global x. */
  predicate Mentions(t: Term, x: GlobalId) {
    match t
    case Int(_) => false
    case Ref(y) => y == x
    case Aggregate(es) => exists i :: 0 <= i < |es| && Mentions(es[i], x)
    case Expr(_, ops) => exists i :: 0 <= i < |ops| && Mentions(ops[i], x)
  }

  /** One `replaceAllUsesWith` on one term: every use of x becomes r. */
  function Subst(t: Term, x: GlobalId, r: Term): Term {
    match t
    case Int(_) => t
    case Ref(y) => if y == x then r else t
    case Aggregate(es) =>
      Aggregate(seq(|es|, i requires 0 <= i < |es| => Subst(es[i], x, r)))
    case Expr(op, ops) =>
      Expr(op, seq(|ops|, i requires 0 <= i < |ops| => Subst(ops[i], x, r)))
  }

  /** Every global that t uses after x was replaced by r was used by t and is
      not x, or is used by r. */
  lemma {:induction false} SubstMentions(t: Term, x: GlobalId, r: Term, y: GlobalId)
    ensures Mentions(Subst(t, x, r), y) ==> (y != x && Mentions(t, y)) || Mentions(r, y)
  {
    match t
    case Int(_) =>
    case Ref(_) =>
    case Aggregate(es) =>
      forall i | 0 <= i < |es|
        ensures Mentions(Subst(es[i], x, r), y) ==> (y != x && Mentions(es[i], y)) || Mentions(r, y)
      {
        SubstMentions(es[i], x, r, y);
      }
    case Expr(_, ops) =>
      forall i | 0 <= i < |ops|
        ensures Mentions(Subst(ops[i], x, r), y) ==> (y != x && Mentions(ops[i], y)) || Mentions(r, y)
      {
        SubstMentions(ops[i], x, r, y);
      }
  }

  /** `replaceAllUsesWith(x, r)` leaves no use of x behind when r does not use x. */
  lemma SubstClears(t: Term, x: GlobalId, r: Term)
    requires !Mentions(r, x)
    ensures !Mentions(Subst(t, x, r), x)
  {
    SubstMentions(t, x, r, x);
  }

  predicate InitMentions(g: Global, x: GlobalId) {
    g.init.Some? && Mentions(g.init.value, x)
  }

  predicate BodyMentions(f: Function, x: GlobalId) {
    exists i :: 0 <= i < |f.body| && Mentions(f.body[i], x)
  }
}
