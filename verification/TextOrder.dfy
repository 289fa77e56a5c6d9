/** The order the source sorts and compares texts by: code point by code point, a
    proper prefix before its extensions. */
module TextOrder {

  predicate Less(a: string, b: string) {
    if |b| == 0 then false
    else if |a| == 0 then true
    else a[0] < b[0] || (a[0] == b[0] && Less(a[1..], b[1..]))
  }

  lemma {:induction false} LessIsIrreflexive(a: string)
    ensures !Less(a, a)
  {
    if a != "" {
      LessIsIrreflexive(a[1..]);
    }
  }

  lemma {:induction false} LessIsTransitive(a: string, b: string, c: string)
    requires Less(a, b) && Less(b, c)
    ensures Less(a, c)
  {
    if a != "" && a[0] == b[0] == c[0] {
      LessIsTransitive(a[1..], b[1..], c[1..]);
    }
  }

  lemma {:induction false} LessIsTotal(a: string, b: string)
    ensures Less(a, b) || Less(b, a) || a == b
  {
    if a != "" && b != "" && a[0] == b[0] {
      LessIsTotal(a[1..], b[1..]);
      assert a == [a[0]] + a[1..] && b == [b[0]] + b[1..];
    }
  }

  /** The larger of two texts, the first when they are equal. */
  function Max(a: string, b: string): (m: string)
    ensures m == a || m == b
    ensures !Less(m, a) && !Less(m, b)
  {
    LessIsIrreflexive(a);
    LessIsIrreflexive(b);
    if Less(a, b) then
      (if Less(b, a) then LessIsTransitive(a, b, a); assert false; b else b)
    else a
  }

  /** The first difference decides; without one the shorter text comes first. */
  lemma {:induction false} LessMeans(a: string, b: string)
    ensures Less(a, b) <==> a != b && (a <= b || exists k :: FirstDifference(a, b, k) && a[k] < b[k])
  {
    if a != "" && b != "" {
      LessMeans(a[1..], b[1..]);
      assert a <= b <==> a[0] == b[0] && a[1..] <= b[1..];
      assert a == b <==> a[0] == b[0] && a[1..] == b[1..];
      if a[0] == b[0] {
        forall k | FirstDifference(a[1..], b[1..], k) ensures FirstDifference(a, b, k + 1) {
          assert a[..k + 1] == [a[0]] + a[1..][..k] && b[..k + 1] == [b[0]] + b[1..][..k];
        }
        forall k | FirstDifference(a, b, k) ensures k > 0 && FirstDifference(a[1..], b[1..], k - 1) {
          assert k > 0 ==> a[1..][..k - 1] == a[..k][1..] && b[1..][..k - 1] == b[..k][1..];
        }
        if exists k :: FirstDifference(a[1..], b[1..], k) && a[1..][k] < b[1..][k] {
          var k :| FirstDifference(a[1..], b[1..], k) && a[1..][k] < b[1..][k];
          assert FirstDifference(a, b, k + 1);
        }
      } else {
        assert FirstDifference(a, b, 0);
        forall k | 0 < k <= |a| && k <= |b| ensures a[..k] != b[..k] {
          assert a[..k][0] == a[0] && b[..k][0] == b[0];
        }
      }
    }
  }

  ghost predicate FirstDifference(a: string, b: string, k: int) {
    0 <= k < |a| && k < |b| && a[..k] == b[..k] && a[k] != b[k]
  }
}
