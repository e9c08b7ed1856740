/** The lexicographic order of strings, a prefix before what it starts. */
module Words {
  predicate Less(a: string, b: string) {
    b != [] && (a == [] || a[0] < b[0] || (a[0] == b[0] && Less(a[1..], b[1..])))
  }

  lemma {:induction false} LessTotal(a: string, b: string)
    ensures Less(a, b) || Less(b, a) || a == b
    ensures !(Less(a, b) && Less(b, a)) && !Less(a, a)
  {
    if a != [] && b != [] {
      LessTotal(a[1..], b[1..]);
      if a[0] == b[0] && a[1..] == b[1..] {
        assert a == [a[0]] + a[1..] && b == [b[0]] + b[1..];
      }
      LessTotal(a[1..], a[1..]);
    } else if a != [] {
      LessTotal(a[1..], a[1..]);
    }
  }

  lemma {:induction false} LessTransitive(a: string, b: string, c: string)
    requires Less(a, b) && Less(b, c)
    ensures Less(a, c)
  {
    if a != [] && a[0] == b[0] && b[0] == c[0] {
      LessTransitive(a[1..], b[1..], c[1..]);
    }
  }

  /** Two words agree on their first `n` letters, and there the first one ends or has the smaller letter. */
  predicate DiffersAt(a: string, b: string, n: nat) {
    n <= |a| && n < |b| && a[..n] == b[..n] && (n == |a| || a[n] < b[n])
  }

  ghost predicate Comes(a: string, b: string) {
    exists n: nat :: DiffersAt(a, b, n)
  }

  /** The order is that of the first difference. */
  lemma {:induction false} LessIs(a: string, b: string)
    ensures Less(a, b) <==> Comes(a, b)
  {
    if b != [] {
      if a == [] || a[0] != b[0] {
        assert a == [] || a[0] < b[0] ==> DiffersAt(a, b, 0);
        if n: nat :| DiffersAt(a, b, n) {
          assert n > 0 ==> a[..n][0] == b[..n][0];
        }
      } else {
        LessIs(a[1..], b[1..]);
        if n: nat :| DiffersAt(a[1..], b[1..], n) {
          assert a[..n + 1] == [a[0]] + a[1..][..n] && b[..n + 1] == [b[0]] + b[1..][..n];
          assert DiffersAt(a, b, n + 1);
        }
        if n: nat :| DiffersAt(a, b, n) {
          assert a[1..][..n - 1] == a[..n][1..] && b[1..][..n - 1] == b[..n][1..];
          assert DiffersAt(a[1..], b[1..], n - 1);
        }
      }
    }
  }
}
