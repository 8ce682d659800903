/** The lexicographic order Rust derives for byte arrays and strings. */
module Order {
  predicate Lex(a: seq<int>, b: seq<int>) {
    a == [] || (b != [] && (a[0] < b[0] || (a[0] == b[0] && Lex(a[1..], b[1..]))))
  }

  lemma {:induction false} LexReflexive(a: seq<int>)
    ensures Lex(a, a)
  {
    if a != [] { LexReflexive(a[1..]); }
  }

  lemma {:induction false} LexTotal(a: seq<int>, b: seq<int>)
    ensures Lex(a, b) || Lex(b, a)
  {
    if a != [] && b != [] { LexTotal(a[1..], b[1..]); }
  }

  lemma {:induction false} LexAntisymmetric(a: seq<int>, b: seq<int>)
    requires Lex(a, b) && Lex(b, a)
    ensures a == b
  {
    if a != [] {
      LexAntisymmetric(a[1..], b[1..]);
      assert a == [a[0]] + a[1..] && b == [b[0]] + b[1..];
    }
  }

  lemma {:induction false} LexTransitive(a: seq<int>, b: seq<int>, c: seq<int>)
    requires Lex(a, b) && Lex(b, c)
    ensures Lex(a, c)
  {
    if a != [] && b[0] == a[0] && c[0] == b[0] { LexTransitive(a[1..], b[1..], c[1..]); }
  }

  /** `i` is the first place where the two differ. */
  predicate FirstDifference(a: seq<int>, b: seq<int>, i: nat) {
    i < |a| && i < |b| && a[i] != b[i] && forall k | 0 <= k < i :: a[k] == b[k]
  }

  /** The smaller one is a prefix of the other, or is smaller where they first differ. */
  lemma {:induction false} LexExactly(a: seq<int>, b: seq<int>)
    ensures a <= b ==> Lex(a, b)
    ensures forall i: nat | FirstDifference(a, b, i) :: Lex(a, b) <==> a[i] < b[i]
  {
    if a != [] && b != [] {
      LexExactly(a[1..], b[1..]);
      forall i: nat | i > 0 && FirstDifference(a, b, i) ensures a[0] == b[0] && FirstDifference(a[1..], b[1..], i - 1) { }
    }
  }

  /** A finite non-empty set has a least element under any key. */
  lemma {:induction false} LeastExists<T(!new)>(s: set<T>, key: T -> seq<int>) returns (m: T)
    requires s != {}
    ensures m in s && forall x | x in s :: Lex(key(m), key(x))
    decreases |s|
  {
    m :| m in s;
    var rest := s - {m};
    LexReflexive(key(m));
    assert forall x | x in s :: x == m || x in rest;
    if rest != {} {
      var r := LeastExists(rest, key);
      LexTotal(key(m), key(r));
      if Lex(key(m), key(r)) {
        forall x | x in s ensures Lex(key(m), key(x)) {
          if x != m { LexTransitive(key(m), key(r), key(x)); }
        }
      } else {
        m := r;
      }
    }
  }
}
