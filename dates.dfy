/**
 * Calendar dates as the catalog stores them: ISO `YYYY-MM-DD` strings.
 * Both handlers compare them with Python's `<` and `>` on `str`, which is
 * lexicographic by code point; that order is `Less` below.
 */
module Dates {

  type Date = string

  /** The far-past placeholder written at seeding and used when a date is missing. */
  const FarPast: Date := "2000-01-01"

  /** Python's `a < b` on strings: first differing character decides, a proper prefix sorts first. */
  predicate Less(a: string, b: string)
    decreases |a|
  {
    if |a| == 0 then |b| != 0
    else if |b| == 0 then false
    else if a[0] != b[0] then a[0] < b[0]
    else Less(a[1..], b[1..])
  }

  lemma {:induction false} LessIrreflexive(a: string)
    ensures !Less(a, a)
    decreases |a|
  {
    if |a| != 0 {
      LessIrreflexive(a[1..]);
    }
  }

  lemma {:induction false} LessTransitive(a: string, b: string, c: string)
    requires Less(a, b) && Less(b, c)
    ensures Less(a, c)
    decreases |a|
  {
    if |a| != 0 && |b| != 0 && |c| != 0 && a[0] == b[0] && b[0] == c[0] {
      LessTransitive(a[1..], b[1..], c[1..]);
    }
  }

  lemma {:induction false} LessTrichotomy(a: string, b: string)
    ensures a == b || Less(a, b) || Less(b, a)
    decreases |a|
  {
    if |a| != 0 && |b| != 0 && a[0] == b[0] {
      LessTrichotomy(a[1..], b[1..]);
      if a[1..] == b[1..] {
        assert a == [a[0]] + a[1..] && b == [b[0]] + b[1..];
      }
    }
  }

  lemma LessAsymmetric(a: string, b: string)
    ensures !(Less(a, b) && Less(b, a))
  {
    if Less(a, b) && Less(b, a) {
      LessTransitive(a, b, a);
      LessIrreflexive(a);
    }
  }

  /** `!Less(a, b)` is Python's `a >= b`: it is reflexive and transitive. */
  lemma AtLeastTransitive(a: string, b: string, c: string)
    requires !Less(a, b) && !Less(b, c)
    ensures !Less(a, c)
  {
    LessTrichotomy(a, b);
    LessTrichotomy(b, c);
    if Less(a, c) {
      if a == b {
      } else if b == c {
      } else {
        LessTransitive(b, a, c);
      }
    }
  }
}
