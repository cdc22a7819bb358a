/** Lexicographic order on strings, the order Rust's `String::cmp` uses: a byte-wise
    comparison of UTF-8 ranks strings exactly as a comparison by code point does. */
module Order {

  predicate Less(a: string, b: string)
  {
    if b == "" then false
    else if a == "" then true
    else a[0] < b[0] || (a[0] == b[0] && Less(a[1..], b[1..]))
  }

  lemma {:induction false} LessTransitive(a: string, b: string, c: string)
    requires Less(a, b) && Less(b, c)
    ensures Less(a, c)
  {
    if a != "" && a[0] == b[0] && b[0] == c[0] {
      LessTransitive(a[1..], b[1..], c[1..]);
    }
  }

  /** Exactly one of `a < b`, `a == b`, `b < a` holds. */
  lemma {:induction false} LessTrichotomous(a: string, b: string)
    ensures Less(a, b) || a == b || Less(b, a)
    ensures !(Less(a, b) && Less(b, a))
    ensures Less(a, b) ==> a != b
  {
    if a != "" && b != "" {
      LessTrichotomous(a[1..], b[1..]);
      assert a == [a[0]] + a[1..];
      assert b == [b[0]] + b[1..];
    }
  }

  /** What the order is: the first difference decides, and a proper prefix comes first. */
  lemma {:induction false} LessByFirstDifference(a: string, b: string)
    ensures Less(a, b) <==> exists k: nat :: Decides(a, b, k)
  {
    if a != "" && b != "" && a[0] == b[0] {
      LessByFirstDifference(a[1..], b[1..]);
      if Less(a, b) {
        var k: nat :| Decides(a[1..], b[1..], k);
        assert a[..k + 1] == [a[0]] + a[1..][..k] && b[..k + 1] == [b[0]] + b[1..][..k];
        assert Decides(a, b, k + 1);
      }
      if exists k: nat :: Decides(a, b, k) {
        var k: nat :| Decides(a, b, k);
        assert k > 0 && a[1..][..k - 1] == a[..k][1..] && b[1..][..k - 1] == b[..k][1..];
        assert Decides(a[1..], b[1..], k - 1);
      }
    } else if Less(a, b) {
      assert Decides(a, b, 0);
    }
  }

  /** The strings agree up to `k`, where `a` ends or has the smaller character. */
  predicate Decides(a: string, b: string, k: nat)
  {
    k <= |a| && k < |b| && a[..k] == b[..k] && (k == |a| || a[k] < b[k])
  }
}
