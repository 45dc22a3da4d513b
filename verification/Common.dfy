/** Vocabulary shared by every component: optional values, results and the errors
    the modelled code can report. */
module Common {

  datatype Option<+T> = None | Some(value: T)

  datatype Result<+T> = Ok(value: T) | Err(error: Error)

  datatype Error =
    | BeginFailed          // "begin tx"
    | StatementFailed      // a statement the database rejected or never answered
    | TxAborted            // a statement sent to a transaction that already failed
    | CommitFailed         // "commit tx"
    | PushFailed           // the Redis pipeline returned an error
    | RedisFailed          // any other Redis command returned an error
    | NullDescription      // a NULL column scanned into a plain string
    | NotFound             // no row matched
    | BadLimit             // negative LIMIT or OFFSET
    | BadMessage           // a stream entry without a usable body or outbox_id
    | HttpFailed           // no response, or a response outside 200..299

  /** No two positions of `s` hold the same value. */
  ghost predicate NoDup<T>(s: seq<T>) {
    forall i, j :: 0 <= i < j < |s| ==> s[i] != s[j]
  }

  function ToSet<T>(s: seq<T>): set<T> {
    set x | x in s
  }

  lemma {:induction false} NoDupCardinality<T>(s: seq<T>)
    requires NoDup(s)
    ensures |ToSet(s)| == |s|
  {
    if s == [] {
    } else {
      var last := |s| - 1;
      NoDupCardinality(s[..last]);
      assert s == s[..last] + [s[last]];
      assert ToSet(s) == ToSet(s[..last]) + {s[last]};
    }
  }

  /** f(1) + ... + f(n-1). */
  function SumBelow(f: nat -> nat, n: nat): nat {
    if n <= 1 then 0 else SumBelow(f, n - 1) + f(n - 1)
  }

  function Below(ids: set<nat>, n: nat): set<nat> {
    set i | i in ids && 1 <= i < n
  }

  lemma BelowStep(ids: set<nat>, n: nat)
    requires n >= 2
    ensures Below(ids, n) == Below(ids, n - 1) + (if n - 1 in ids then {n - 1} else {})
    ensures |Below(ids, n)| == |Below(ids, n - 1)| + (if n - 1 in ids then 1 else 0)
  {
    assert Below(ids, n) == Below(ids, n - 1) + (if n - 1 in ids then {n - 1} else {});
  }

  /** If g is below f everywhere, and strictly below on `ids`, the sums differ by at
      least the number of such positions. */
  lemma {:induction false} SumDrop(f: nat -> nat, g: nat -> nat, n: nat, ids: set<nat>)
    requires forall i :: 1 <= i < n ==> g(i) + (if i in ids then 1 else 0) <= f(i)
    ensures SumBelow(g, n) + |Below(ids, n)| <= SumBelow(f, n)
    decreases n
  {
    if n <= 1 {
      assert Below(ids, n) == {};
    } else {
      SumDrop(f, g, n - 1, ids);
      BelowStep(ids, n);
    }
  }

  /** A sum of terms that are at most c on `ids` and zero elsewhere. */
  lemma {:induction false} SumBound(f: nat -> nat, n: nat, ids: set<nat>, c: nat)
    requires forall i :: 1 <= i < n ==> f(i) <= if i in ids then c else 0
    ensures SumBelow(f, n) <= c * |Below(ids, n)|
    decreases n
  {
    if n >= 2 {
      SumBound(f, n - 1, ids, c);
      BelowStep(ids, n);
      assert c * (|Below(ids, n - 1)| + 1) == c * |Below(ids, n - 1)| + c;
    }
  }

  /** A sum of terms that are at most c. */
  lemma {:induction false} SumBoundAll(f: nat -> nat, n: nat, c: nat)
    requires n >= 1 && forall i :: 1 <= i < n ==> f(i) <= c
    ensures SumBelow(f, n) <= c * (n - 1)
    decreases n
  {
    if n >= 2 {
      SumBoundAll(f, n - 1, c);
      assert c * (n - 1) == c * (n - 2) + c;
    }
  }

  lemma {:induction false} SumPositive(f: nat -> nat, n: nat, i: nat)
    requires 1 <= i < n
    ensures f(i) <= SumBelow(f, n)
    decreases n
  {
    if i < n - 1 { SumPositive(f, n - 1, i); }
  }

  lemma SubsetSmaller<T>(a: set<T>, b: set<T>)
    requires a <= b && a != b
    ensures |a| < |b|
  {
    var x :| x in b && x !in a;
    SubsetCardinality(a, b - {x});
  }

  lemma {:induction false} SubsetCardinality<T>(a: set<T>, b: set<T>)
    requires a <= b
    ensures |a| <= |b|
    decreases a
  {
    if a != {} {
      var x :| x in a;
      SubsetCardinality(a - {x}, b - {x});
    }
  }

  /** Two different sets of the same size each hold something the other does not. */
  lemma SameSizeDiffer<T>(a: set<T>, b: set<T>) returns (x: T, y: T)
    requires |a| == |b| && a != b
    ensures x in a && x !in b && y in b && y !in a
  {
    if a <= b { SubsetSmaller(a, b); }
    if b <= a { SubsetSmaller(b, a); }
    x :| x in a && x !in b;
    y :| y in b && y !in a;
  }
}
