/** Small vocabulary shared by the other modules. */
module Base {

  datatype Option<+T> = None | Some(value: T)

  datatype Result<+T, +E> = Ok(value: T) | Err(error: E)

  /** How an enqueue of a delivery can end: it returns, or raises before or after its row is committed. */
  datatype Fault = NoFault | BeforeCommit | AfterCommit

  predicate Committed(f: Fault) { !f.BeforeCommit? }

  ghost predicate NoDuplicates<T>(s: seq<T>) {
    forall i, j | 0 <= i < j < |s| :: s[i] != s[j]
  }

  ghost function Elements<T>(s: seq<T>): set<T> {
    set x | x in s
  }

  /** The rows of a query in an order the database chooses. */
  method Enumerate<T(==)>(s: set<T>) returns (rows: seq<T>)
    ensures NoDuplicates(rows)
    ensures forall x :: x in rows <==> x in s
    ensures |rows| == |s|
  {
    rows := [];
    var rest := s;
    while rest != {}
      invariant rest <= s
      invariant forall x :: x in rows <==> x in s && x !in rest
      invariant NoDuplicates(rows)
      invariant |rows| + |rest| == |s|
      decreases |rest|
    {
      var x :| x in rest;
      rest := rest - {x};
      rows := rows + [x];
    }
  }

  lemma SubsetSize<T>(a: set<T>, b: set<T>)
    requires a <= b
    ensures |a| <= |b|
    ensures a != b ==> |a| < |b|
  {
    assert b == a + (b - a);
    if a != b {
      assert b - a != {};
    }
  }
}
