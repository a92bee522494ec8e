/**
 * The primary-key order of string keys, which decides which row gorm's
 * `First` returns: the least key among the matching rows, comparing
 * character codes from the left, a proper prefix first.
 */
module KeyOrder {
  /** `a` sorts no later than `b`. */
  predicate LexLe(a: string, b: string) {
    a == [] || (b != [] && (a[0] < b[0] || (a[0] == b[0] && LexLe(a[1..], b[1..]))))
  }

  /** The empty key sorts before every key. */
  lemma EmptyIsLeast(b: string)
    ensures LexLe([], b)
  {
  }

  /** Only the empty key sorts no later than the empty key. */
  lemma LeEmptyIsEmpty(a: string)
    requires LexLe(a, [])
    ensures a == []
  {
  }

  lemma {:induction false} LexLeReflexive(a: string)
    ensures LexLe(a, a)
  {
    if a != [] {
      LexLeReflexive(a[1..]);
    }
  }

  lemma {:induction false} LexLeTotal(a: string, b: string)
    ensures LexLe(a, b) || LexLe(b, a)
  {
    if a != [] && b != [] && a[0] == b[0] {
      LexLeTotal(a[1..], b[1..]);
    }
  }

  lemma {:induction false} LexLeAntisymmetric(a: string, b: string)
    requires LexLe(a, b) && LexLe(b, a)
    ensures a == b
  {
    if a != [] && b != [] {
      LexLeAntisymmetric(a[1..], b[1..]);
      assert a == [a[0]] + a[1..] && b == [b[0]] + b[1..];
    }
  }

  lemma {:induction false} LexLeTransitive(a: string, b: string, c: string)
    requires LexLe(a, b) && LexLe(b, c)
    ensures LexLe(a, c)
  {
    if a != [] && a[0] == b[0] && b[0] == c[0] {
      LexLeTransitive(a[1..], b[1..], c[1..]);
    }
  }

  /** `m` is the key `First` returns from the rows keyed by `s`. */
  ghost predicate IsLeast(m: string, s: set<string>) {
    m in s && forall k :: k in s ==> LexLe(m, k)
  }

  /** The least key of a non-empty set. */
  ghost function Least(s: set<string>): (m: string)
    requires s != {}
    ensures IsLeast(m, s)
    decreases |s|
  {
    var x :| x in s;
    LexLeReflexive(x);
    if s == {x} then x
    else
      var r := Least(s - {x});
      LexLeTotal(x, r);
      if LexLe(x, r) then
        assert forall k :: k in s ==> LexLe(x, k) by {
          forall k | k in s - {x} {
            LexLeTransitive(x, r, k);
          }
        }
        x
      else r
  }

  /** A set has one least key. */
  lemma LeastUnique(m: string, s: set<string>)
    requires IsLeast(m, s)
    ensures m == Least(s)
  {
    LexLeAntisymmetric(m, Least(s));
  }

  /** Finds the least key by one pass over the set. */
  method LeastKey(s: set<string>) returns (m: string)
    requires s != {}
    ensures m == Least(s)
  {
    m :| m in s;
    LexLeReflexive(m);
    var rest := s - {m};
    while rest != {}
      invariant rest <= s && m in s
      invariant forall k :: k in s - rest ==> LexLe(m, k)
      decreases rest
    {
      var k :| k in rest;
      LexLeTotal(m, k);
      LexLeReflexive(k);
      if !LexLe(m, k) {
        forall j | j in s - rest {
          LexLeTransitive(k, m, j);
        }
        m := k;
      }
      rest := rest - {k};
    }
    LeastUnique(m, s);
  }
}
