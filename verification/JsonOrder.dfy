// An order of conditions and parents that compares field by field, as the order of their JSON texts does.

module JsonOrder {
  import opened Sorting
  import opened RouteStatus

  function LexLess<T(==)>(less: (T, T) -> bool, a: seq<T>, b: seq<T>): bool {
    if b == [] then false
    else if a == [] then true
    else if a[0] == b[0] then LexLess(less, a[1..], b[1..])
    else less(a[0], b[0])
  }

  function Lex<T(==)>(less: (T, T) -> bool): (seq<T>, seq<T>) -> bool { (a, b) => LexLess(less, a, b) }

  lemma {:induction false} LexIrreflexive<T(!new)>(less: (T, T) -> bool, a: seq<T>)
    ensures !LexLess(less, a, a)
  {
    if a != [] {
      LexIrreflexive(less, a[1..]);
    }
  }

  lemma {:induction false} LexConnected<T(!new)>(less: (T, T) -> bool, a: seq<T>, b: seq<T>)
    requires Connected(less)
    ensures a == b || LexLess(less, a, b) || LexLess(less, b, a)
  {
    if a != [] && b != [] {
      LexConnected(less, a[1..], b[1..]);
      assert a == [a[0]] + a[1..] && b == [b[0]] + b[1..];
    }
  }

  lemma {:induction false} LexTransitive<T(!new)>(less: (T, T) -> bool, a: seq<T>, b: seq<T>, c: seq<T>)
    requires StrictTotal(less) && LexLess(less, a, b) && LexLess(less, b, c)
    ensures LexLess(less, a, c)
  {
    if a != [] && a[0] == b[0] && b[0] == c[0] {
      LexTransitive(less, a[1..], b[1..], c[1..]);
    }
  }

  lemma {:induction false} LexStrictTotal<T(!new)>(less: (T, T) -> bool)
    requires StrictTotal(less)
    ensures StrictTotal(Lex(less))
  {
    forall a, b, c | LexLess(less, a, b) && LexLess(less, b, c)
      ensures LexLess(less, a, c)
    {
      LexTransitive(less, a, b, c);
    }
    forall a, b
      ensures a == b || LexLess(less, a, b) || LexLess(less, b, a)
      ensures !LexLess(less, a, a)
    {
      LexIrreflexive(less, a);
      LexConnected(less, a, b);
    }
  }

  /** By the first component, then by the second. */
  function Pair<A(==), B>(la: (A, A) -> bool, lb: (B, B) -> bool): ((A, B), (A, B)) -> bool {
    (x: (A, B), y: (A, B)) => if x.0 == y.0 then lb(x.1, y.1) else la(x.0, y.0)
  }

  lemma {:induction false} PairStrictTotal<A(!new), B(!new)>(la: (A, A) -> bool, lb: (B, B) -> bool)
    requires StrictTotal(la) && StrictTotal(lb)
    ensures StrictTotal(Pair(la, lb))
  {
    var less := Pair(la, lb);
    forall x: (A, B), y: (A, B)
      ensures !less(x, x) && (x == y || less(x, y) || less(y, x))
    {
      assert x == (x.0, x.1) && y == (y.0, y.1);
    }
    forall x: (A, B), y: (A, B), z: (A, B) | less(x, y) && less(y, z)
      ensures less(x, z)
    {
      assert x.0 == y.0 ==> lb(x.1, y.1);
      assert x.0 != y.0 ==> la(x.0, y.0);
      assert y.0 == z.0 ==> lb(y.1, z.1);
      assert y.0 != z.0 ==> la(y.0, z.0);
    }
  }

  function Via<T, K>(f: T -> K, less: (K, K) -> bool): (T, T) -> bool { (a, b) => less(f(a), f(b)) }

  lemma {:induction false} ViaStrictTotal<T(!new), K(!new)>(f: T -> K, less: (K, K) -> bool)
    requires StrictTotal(less) && forall a, b | f(a) == f(b) :: a == b
    ensures StrictTotal(Via(f, less))
  {}

  function Chars(): (char, char) -> bool { (a, b) => a < b }
  function Ints(): (int, int) -> bool { (a, b) => a < b }
  function Texts(): (string, string) -> bool { Lex(Chars()) }

  type ConditionKey = (string, (string, (int, (int, (string, string)))))

  function ConditionKeyOf(): Condition -> ConditionKey {
    (c: Condition) => (c.kind, (c.status, (c.generation, (c.time, (c.reason, c.message)))))
  }

  function AfterKind(): ((string, (int, (int, (string, string)))), (string, (int, (int, (string, string))))) -> bool {
    Pair(Texts(), Pair(Ints(), Pair(Ints(), Pair(Texts(), Texts()))))
  }

  function Conditions(): (Condition, Condition) -> bool { Via(ConditionKeyOf(), Pair(Texts(), AfterKind())) }

  function HeadKeyOf(): Head -> (string, string) { (h: Head) => (h.ref, h.controller) }

  function Heads(): (Head, Head) -> bool { Via(HeadKeyOf(), Pair(Texts(), Texts())) }

  function ParentKeyOf(): Parent -> (Head, seq<Condition>) { (p: Parent) => (HeadOf(p), p.conditions) }

  function Parents(): (Parent, Parent) -> bool { Via(ParentKeyOf(), Pair(Heads(), Lex(Conditions()))) }

  lemma {:induction false} ConditionsOrdered()
    ensures StrictTotal(Texts()) && StrictTotal(Conditions())
  {
    LexStrictTotal(Chars());
    PairStrictTotal(Texts(), Texts());
    PairStrictTotal(Ints(), Pair(Texts(), Texts()));
    PairStrictTotal(Ints(), Pair(Ints(), Pair(Texts(), Texts())));
    PairStrictTotal(Texts(), Pair(Ints(), Pair(Ints(), Pair(Texts(), Texts()))));
    PairStrictTotal(Texts(), AfterKind());
    ViaStrictTotal(ConditionKeyOf(), Pair(Texts(), AfterKind()));
  }

  lemma {:induction false} ParentsOrdered()
    ensures StrictTotal(Parents())
  {
    ConditionsOrdered();
    PairStrictTotal(Texts(), Texts());
    ViaStrictTotal(HeadKeyOf(), Pair(Texts(), Texts()));
    LexStrictTotal(Conditions());
    PairStrictTotal(Heads(), Lex(Conditions()));
    ViaStrictTotal(ParentKeyOf(), Pair(Heads(), Lex(Conditions())));
  }

  /** Comparing field by field, in the order of the JSON fields, is an order as the merge relies on. */
  lemma {:induction false} FieldByFieldIsJsonLike()
    ensures JsonLike(Order(Conditions(), Parents(), Texts(), Heads()))
  {
    ConditionsOrdered();
    ParentsOrdered();
  }
}
