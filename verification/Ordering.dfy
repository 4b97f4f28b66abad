/** Code-point order on strings and the sorted listing of a finite set of them. */
module Ordering {

  predicate Less(a: string, b: string) {
    if b == [] then false
    else if a == [] then true
    else a[0] < b[0] || (a[0] == b[0] && Less(a[1..], b[1..]))
  }

  lemma {:induction false} LessIrreflexive(a: string)
    ensures !Less(a, a)
  {
    if a != [] { LessIrreflexive(a[1..]); }
  }

  lemma {:induction false} LessTransitive(a: string, b: string, c: string)
    requires Less(a, b) && Less(b, c)
    ensures Less(a, c)
  {
    if a != [] && a[0] == b[0] && b[0] == c[0] { LessTransitive(a[1..], b[1..], c[1..]); }
  }

  lemma {:induction false} LessTotal(a: string, b: string)
    ensures Less(a, b) || a == b || Less(b, a)
  {
    if a != [] && b != [] && a[0] == b[0] {
      LessTotal(a[1..], b[1..]);
      assert a == [a[0]] + a[1..] && b == [b[0]] + b[1..];
    }
  }

  /** A proper prefix sorts first. */
  lemma {:induction false} PrefixIsLess(a: string, b: string)
    requires b != []
    ensures Less(a, a + b)
  {
    if a != [] {
      PrefixIsLess(a[1..], b);
      assert (a + b)[1..] == a[1..] + b;
    }
  }

  predicate StrictlySorted(s: seq<string>) {
    forall i, j | 0 <= i < j < |s| :: Less(s[i], s[j])
  }

  method Least(s: set<string>) returns (m: string)
    requires s != {}
    ensures m in s && forall x | x in s :: x == m || Less(m, x)
  {
    m :| m in s;
    var rest := s - {m};
    while rest != {}
      invariant m in s && rest <= s && m !in rest
      invariant forall x | x in s && x !in rest :: x == m || Less(m, x)
      decreases |rest|
    {
      var y :| y in rest;
      LessTotal(m, y);
      if Less(y, m) {
        forall x | x in s && x !in rest ensures x == y || Less(y, x) {
          if x != m { LessTransitive(y, m, x); }
        }
        m := y;
      }
      rest := rest - {y};
    }
  }

  method Sorted(s: set<string>) returns (r: seq<string>)
    ensures StrictlySorted(r) && forall x :: x in r <==> x in s
  {
    r := [];
    var rest := s;
    while rest != {}
      invariant rest <= s && StrictlySorted(r)
      invariant forall x :: x in r <==> x in s && x !in rest
      invariant forall i, x | 0 <= i < |r| && x in rest :: Less(r[i], x)
      decreases |rest|
    {
      var m := Least(rest);
      r := r + [m];
      rest := rest - {m};
    }
  }
}
