/** Datastore keys as the mapper sees them: a kind, an integer id or a string name, and a namespace,
    ordered the way the App Engine SDK compares keys. */
module Keys {
  import opened Wrappers
  import Seqs

  datatype IdOrName = Id(id: int) | Name(name: string)

  datatype Key = Key(kind: string, idOrName: IdOrName, namespace: string)

  /** Errors that Python raises from key arithmetic. */
  datatype KeyError =
    | NotImplemented   // `_mid_key` on a key name
    | TypeError        // subtraction with a key name as an operand

  /** Python 2 string comparison: lexicographic on characters. */
  predicate StrLt(a: string, b: string)
    decreases |a|
  {
    if a == [] then b != []
    else if b == [] then false
    else if a[0] != b[0] then a[0] < b[0]
    else StrLt(a[1..], b[1..])
  }

  /** Python 2 compares an int with a str by type, and every number sorts before every string. */
  predicate ValLt(x: IdOrName, y: IdOrName) {
    match (x, y)
    case (Id(a), Id(b)) => a < b
    case (Id(_), Name(_)) => true
    case (Name(_), Id(_)) => false
    case (Name(a), Name(b)) => StrLt(a, b)
  }

  /** Keys compare by namespace, then kind, then id or name. */
  predicate KeyLt(a: Key, b: Key) {
    || StrLt(a.namespace, b.namespace)
    || (a.namespace == b.namespace && StrLt(a.kind, b.kind))
    || (a.namespace == b.namespace && a.kind == b.kind && ValLt(a.idOrName, b.idOrName))
  }

  predicate KeyLe(a: Key, b: Key) {
    a == b || KeyLt(a, b)
  }

  /** The key lies in the given kind and namespace (the scope of one query). */
  predicate InScope(k: Key, kind: string, namespace: string) {
    k.kind == kind && k.namespace == namespace
  }

  lemma {:induction false} StrLtIrreflexive(a: string)
    ensures !StrLt(a, a)
  {
    if a != [] { StrLtIrreflexive(a[1..]); }
  }

  lemma {:induction false} StrLtTransitive(a: string, b: string, c: string)
    requires StrLt(a, b) && StrLt(b, c)
    ensures StrLt(a, c)
  {
    if a != [] && b != [] && c != [] && a[0] == b[0] && b[0] == c[0] {
      StrLtTransitive(a[1..], b[1..], c[1..]);
    }
  }

  lemma {:induction false} StrLtTotal(a: string, b: string)
    requires a != b
    ensures StrLt(a, b) || StrLt(b, a)
  {
    if a != [] && b != [] && a[0] == b[0] {
      assert a == [a[0]] + a[1..] && b == [b[0]] + b[1..];
      StrLtTotal(a[1..], b[1..]);
    }
  }

  lemma StrLtAsymmetric(a: string, b: string)
    requires StrLt(a, b)
    ensures !StrLt(b, a)
  {
    if StrLt(b, a) {
      StrLtTransitive(a, b, a);
      StrLtIrreflexive(a);
    }
  }

  lemma ValLtFacts(x: IdOrName, y: IdOrName, z: IdOrName)
    ensures !ValLt(x, x)
    ensures ValLt(x, y) && ValLt(y, z) ==> ValLt(x, z)
    ensures x != y ==> ValLt(x, y) || ValLt(y, x)
  {
    if x.Name? { StrLtIrreflexive(x.name); }
    if x.Name? && y.Name? && z.Name? && ValLt(x, y) && ValLt(y, z) {
      StrLtTransitive(x.name, y.name, z.name);
    }
    if x.Name? && y.Name? && x != y { StrLtTotal(x.name, y.name); }
  }

  lemma KeyLtFacts(a: Key, b: Key, c: Key)
    ensures !KeyLt(a, a)
    ensures KeyLt(a, b) && KeyLt(b, c) ==> KeyLt(a, c)
    ensures a != b ==> KeyLt(a, b) || KeyLt(b, a)
  {
    StrLtIrreflexive(a.namespace);
    StrLtIrreflexive(a.kind);
    ValLtFacts(a.idOrName, b.idOrName, c.idOrName);
    if KeyLt(a, b) && KeyLt(b, c) {
      if StrLt(a.namespace, b.namespace) && StrLt(b.namespace, c.namespace) {
        StrLtTransitive(a.namespace, b.namespace, c.namespace);
      }
      if a.namespace == b.namespace == c.namespace && StrLt(a.kind, b.kind) && StrLt(b.kind, c.kind) {
        StrLtTransitive(a.kind, b.kind, c.kind);
      }
    }
    if a != b {
      if a.namespace != b.namespace {
        StrLtTotal(a.namespace, b.namespace);
      } else if a.kind != b.kind {
        StrLtTotal(a.kind, b.kind);
      }
    }
  }

  lemma KeyLtIsStrictTotalOrder()
    ensures Seqs.StrictTotalOrder(KeyLt)
  {
    forall a: Key, b: Key, c: Key
      ensures !KeyLt(a, a)
      ensures KeyLt(a, b) && KeyLt(b, c) ==> KeyLt(a, c)
      ensures a != b ==> KeyLt(a, b) || KeyLt(b, a)
    {
      KeyLtFacts(a, b, c);
    }
  }

  /** Within one kind and namespace, integer-id keys compare as their ids. */
  lemma IdKeyLt(a: Key, b: Key)
    requires a.idOrName.Id? && b.idOrName.Id?
    requires a.kind == b.kind && a.namespace == b.namespace
    ensures KeyLt(a, b) <==> a.idOrName.id < b.idOrName.id
  {
    StrLtIrreflexive(a.namespace);
    StrLtIrreflexive(a.kind);
  }

  /** `_next_key`: the id plus one, or the name with `chr(1)` appended, in the same kind and namespace. */
  function NextKey(k: Key): (r: Key)
    ensures r.kind == k.kind && r.namespace == k.namespace
    ensures KeyLt(k, r)
  {
    match k.idOrName
    case Id(i) => Key(k.kind, Id(i + 1), k.namespace)
    case Name(n) =>
      NameLtExtension(n, "\U{1}");
      Key(k.kind, Name(n + "\U{1}"), k.namespace)
  }

  lemma {:induction false} NameLtExtension(n: string, tail: string)
    requires tail != []
    ensures StrLt(n, n + tail)
  {
    if n != [] {
      assert (n + tail)[1..] == n[1..] + tail;
      NameLtExtension(n[1..], tail);
    }
  }

  /** Different keys have different successors. */
  lemma NextKeyInjective(a: Key, b: Key)
    requires NextKey(a) == NextKey(b)
    ensures a == b
  {
    if a.idOrName.Name? && b.idOrName.Name? {
      var na, nb := a.idOrName.name, b.idOrName.name;
      assert na == (na + "\U{1}")[..|na|];
      assert nb == (nb + "\U{1}")[..|nb|];
    }
  }

  /** For an integer id no key lies strictly between a key and its successor. */
  lemma NextKeyOfIdIsImmediate(k: Key, j: Key)
    requires k.idOrName.Id?
    ensures !(KeyLt(k, j) && KeyLt(j, NextKey(k)))
  {
    var n := NextKey(k);
    StrLtIrreflexive(k.namespace);
    StrLtIrreflexive(k.kind);
    if KeyLt(k, j) && KeyLt(j, n) {
      if StrLt(k.namespace, j.namespace) {
        if StrLt(j.namespace, k.namespace) { StrLtAsymmetric(k.namespace, j.namespace); }
      } else if StrLt(k.kind, j.kind) {
        if StrLt(j.kind, k.kind) { StrLtAsymmetric(k.kind, j.kind); }
      }
    }
  }

  /** `_mid_key`: halfway between two integer ids, floor-rounded, in the first key's kind and
      namespace. A key name as the first argument is unsupported; as the second the subtraction fails. */
  function MidKey(low: Key, high: Key): (r: Result<Key, KeyError>)
    ensures low.idOrName.Name? ==> r == Failure(NotImplemented)
    ensures low.idOrName.Id? && high.idOrName.Name? ==> r == Failure(TypeError)
    ensures low.idOrName.Id? && high.idOrName.Id? ==>
              && r.Success? && r.value.idOrName.Id?
              && r.value.kind == low.kind && r.value.namespace == low.namespace
              && (low.idOrName.id <= high.idOrName.id ==>
                    && low.idOrName.id <= r.value.idOrName.id <= high.idOrName.id
                    && 0 <= (r.value.idOrName.id - low.idOrName.id) - (high.idOrName.id - r.value.idOrName.id - 1) <= 1)
              && (low.idOrName.id < high.idOrName.id ==> r.value.idOrName.id < high.idOrName.id)
  {
    match (low.idOrName, high.idOrName)
    case (Name(_), _) => Failure(NotImplemented)
    case (Id(_), Name(_)) => Failure(TypeError)
    // Python's `//` rounds toward minus infinity, as Dafny's `/` does for a positive divisor.
    case (Id(a), Id(b)) => Success(Key(low.kind, Id(a + (b - a) / 2), low.namespace))
  }
}
