/**
  The scalar `Value` of engine.py and its arithmetic operators.

  Python objects have identity: `Value(2) + 3` creates two new objects (the
  coerced leaf `Value(3)` and the sum) and leaves every existing object as it
  was. The model keeps that identity explicit. All Values live in a `Heap`, a
  sequence whose slot `r` holds the object referred to by `r`; constructing a
  Value appends one slot, and nothing ever writes to an existing slot.
 */
module Engine {

  /** One scalar node: the number it wraps. Python floats are modelled as reals. */
  datatype Value = Value(data: real)

  /** A reference to a Value: its slot in the heap. */
  type Ref = nat

  /** Every Value constructed so far, in construction order. */
  type Heap = seq<Value>

  /** The right-hand operand of `+` or `*`: a Value already constructed, or a bare number. */
  datatype Operand = Node(ref: Ref) | Scalar(x: real)

  /** What a Python method call hands back: `None`, or a reference to a Value. */
  datatype Returned = NoneReturned | Obj(ref: Ref)

  /** `h'` is `h` after some construction: every existing Value is still there, unchanged. */
  predicate Extends(h: Heap, h': Heap)
  {
    |h| <= |h'| && h'[..|h|] == h
  }

  /** The operand refers to a Value that exists in `h` (a bare number always does). */
  predicate Holds(h: Heap, o: Operand)
  {
    o.Node? ==> o.ref < |h|
  }

  /** The number an operand stands for. */
  function DataOf(h: Heap, o: Operand): real
    requires Holds(h, o)
  {
    match o
    case Node(r) => h[r].data
    case Scalar(x) => x
  }

  /** How many Values coercing the operand constructs: one leaf for a bare number, none for a Value. */
  function CoercionCost(o: Operand): nat
  {
    if o.Scalar? then 1 else 0
  }

  /** `Value(data)`: a fresh Value, distinct from every existing one, holding exactly `data`. */
  function New(h: Heap, data: real): (res: (Heap, Ref))
    ensures Extends(h, res.0) && |res.0| == |h| + 1
    ensures |h| <= res.1 < |res.0| && res.0[res.1].data == data
  {
    (h + [Value(data)], |h|)
  }

  /** `other if isinstance(other, Value) else Value(other)`: a Value operand is used as it is;
      a bare number becomes a fresh leaf Value holding that number. */
  function Coerce(h: Heap, other: Operand): (res: (Heap, Ref))
    requires Holds(h, other)
    ensures Extends(h, res.0) && |res.0| == |h| + CoercionCost(other)
    ensures res.1 < |res.0| && res.0[res.1].data == DataOf(h, other)
    ensures other.Node? ==> res.1 == other.ref
    ensures other.Scalar? ==> res.1 == |h|
  {
    match other
    case Node(r) => (h, r)
    case Scalar(x) => New(h, x)
  }

  /** `self + other`: returns a fresh Value holding the sum; no existing Value changes. */
  function Add(h: Heap, self: Ref, other: Operand): (res: (Heap, Returned))
    requires self < |h| && Holds(h, other)
    ensures Extends(h, res.0)
    ensures |res.0| == |h| + CoercionCost(other) + 1
    ensures other.Scalar? ==> res.0[|h|].data == other.x
    ensures res.1.Obj? && res.1.ref == |res.0| - 1
    ensures res.0[res.1.ref].data == h[self].data + DataOf(h, other)
  {
    var (h1, o) := Coerce(h, other);
    var (h2, out) := New(h1, h[self].data + h1[o].data);
    (h2, Obj(out))
  }

  /** `self * other`, as written: the product is computed into a fresh Value,
      but the method has no `return`, so the call yields `None`. */
  function Mul(h: Heap, self: Ref, other: Operand): (res: (Heap, Returned))
    requires self < |h| && Holds(h, other)
    ensures Extends(h, res.0)
    ensures |res.0| == |h| + CoercionCost(other) + 1
    ensures other.Scalar? ==> res.0[|h|].data == other.x
    ensures res.0[|res.0| - 1].data == h[self].data * DataOf(h, other)
    ensures res.1 == NoneReturned
  {
    var (h1, o) := Coerce(h, other);
    var (h2, _) := New(h1, h[self].data * h1[o].data);
    (h2, NoneReturned)
  }

  /** `other * self` when `other` has no `*` for Values: delegates to `self * other`,
      so it constructs the same Values and also yields `None`. */
  function RMul(h: Heap, self: Ref, other: Operand): (res: (Heap, Returned))
    requires self < |h| && Holds(h, other)
    ensures res == Mul(h, self, other)
    ensures res.0[|res.0| - 1].data == DataOf(h, other) * h[self].data
    ensures res.1 == NoneReturned
  {
    Mul(h, self, other)
  }

  /** `-self`: delegates to `self * -1`, so it constructs the leaf `-1` and the
      negated product, and yields `None`. */
  function Neg(h: Heap, self: Ref): (res: (Heap, Returned))
    requires self < |h|
    ensures res == Mul(h, self, Scalar(-1.0))
    ensures |res.0| == |h| + 2 && res.0[|h|].data == -1.0
    ensures res.0[|h| + 1].data == -h[self].data
    ensures res.1 == NoneReturned
  {
    Mul(h, self, Scalar(-1.0))
  }

  /** `self * other` with the `return out` the method evidently intends. */
  function MulReturning(h: Heap, self: Ref, other: Operand): (res: (Heap, Returned))
    requires self < |h| && Holds(h, other)
    ensures Extends(h, res.0)
    ensures |res.0| == |h| + CoercionCost(other) + 1
    ensures res.1.Obj? && res.1.ref == |res.0| - 1
    ensures res.0[res.1.ref].data == h[self].data * DataOf(h, other)
  {
    var (h1, o) := Coerce(h, other);
    var (h2, out) := New(h1, h[self].data * h1[o].data);
    (h2, Obj(out))
  }

  /** A Value that exists before an operation keeps its data afterwards. */
  lemma ExtendsKeeps(h: Heap, h': Heap, r: Ref)
    requires Extends(h, h') && r < |h|
    ensures r < |h'| && h'[r] == h[r]
  {
    assert h'[..|h|][r] == h[r];
  }

  /** Constructions compose: a heap extended twice extends the original. */
  lemma ExtendsTransitive(h: Heap, h1: Heap, h2: Heap)
    requires Extends(h, h1) && Extends(h1, h2)
    ensures Extends(h, h2)
  {
    assert h2[..|h1|][..|h|] == h2[..|h|];
  }

  /** Adding a bare number is the same as first constructing the leaf `Value(n)`
      and adding that Value: the coercion is exactly one constructor call. */
  lemma AddCoercesScalar(h: Heap, self: Ref, n: real)
    requires self < |h|
    ensures Add(h, self, Scalar(n)) == Add(New(h, n).0, self, Node(New(h, n).1))
  {
  }

  /** No operator changes an existing Value: both operands, and every other Value,
      hold the same data afterwards. */
  lemma OperatorsKeepExistingValues(h: Heap, self: Ref, other: Operand, r: Ref)
    requires self < |h| && Holds(h, other) && r < |h|
    ensures Add(h, self, other).0[r] == h[r]
    ensures Mul(h, self, other).0[r] == h[r]
    ensures RMul(h, self, other).0[r] == h[r]
    ensures Neg(h, self).0[r] == h[r]
  {
    ExtendsKeeps(h, Add(h, self, other).0, r);
    ExtendsKeeps(h, Mul(h, self, other).0, r);
    ExtendsKeeps(h, Neg(h, self).0, r);
  }

  /** The corrected multiplication constructs exactly the Values the written one
      does; the written one only drops the reference to the product. */
  lemma MulDropsProduct(h: Heap, self: Ref, other: Operand)
    requires self < |h| && Holds(h, other)
    ensures Mul(h, self, other).0 == MulReturning(h, self, other).0
    ensures Mul(h, self, other).1 == NoneReturned
    ensures MulReturning(h, self, other).1 == Obj(|Mul(h, self, other).0| - 1)
  {
  }

  /** `Value(2) * Value(3)` constructs a Value holding 6 and returns `None`;
      the corrected method returns that Value. */
  lemma MulTwoByThree()
    ensures Mul([Value(2.0), Value(3.0)], 0, Node(1)) == ([Value(2.0), Value(3.0), Value(6.0)], NoneReturned)
    ensures MulReturning([Value(2.0), Value(3.0)], 0, Node(1)) == ([Value(2.0), Value(3.0), Value(6.0)], Obj(2))
  {
    var h := [Value(2.0), Value(3.0)];
    assert h + [Value(2.0 * 3.0)] == [Value(2.0), Value(3.0), Value(6.0)];
  }
}
