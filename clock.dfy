/** The UTC timestamps the bot reads its clock as (Python `datetime` in UTC), and their
    chronological order. */
module Clock {

  datatype DateTime = DateTime(year: int, month: int, day: int, hour: int, minute: int, second: int, microsecond: int)
  {
    /** The ranges `datetime` enforces on its fields. */
    predicate Valid() {
      1 <= month <= 12 && 1 <= day <= 31 && 0 <= hour < 24 && 0 <= minute < 60
      && 0 <= second < 60 && 0 <= microsecond < 1000000
    }

    /** The fields from the most significant to the least. */
    function Fields(): (f: seq<int>)
      ensures |f| == 7
    {
      [year, month, day, hour, minute, second, microsecond]
    }
  }

  /** Lexicographic order on field lists of equal length. */
  predicate LexLess(a: seq<int>, b: seq<int>)
    requires |a| == |b|
    decreases |a|
  {
    |a| > 0 && (a[0] < b[0] || (a[0] == b[0] && LexLess(a[1..], b[1..])))
  }

  /** `a < b` on datetimes of one time zone: comparison field by field. */
  predicate Before(a: DateTime, b: DateTime) {
    LexLess(a.Fields(), b.Fields())
  }

  lemma {:induction false} LexLessTransitive(a: seq<int>, b: seq<int>, c: seq<int>)
    requires |a| == |b| == |c|
    requires LexLess(a, b) && LexLess(b, c)
    ensures LexLess(a, c)
    decreases |a|
  {
    if a[0] == b[0] && b[0] == c[0] {
      LexLessTransitive(a[1..], b[1..], c[1..]);
    }
  }

  lemma {:induction false} LexLessTrichotomy(a: seq<int>, b: seq<int>)
    requires |a| == |b|
    ensures a == b || LexLess(a, b) || LexLess(b, a)
    ensures !(LexLess(a, b) && LexLess(b, a))
    ensures !LexLess(a, a)
    decreases |a|
  {
    if |a| > 0 {
      LexLessTrichotomy(a[1..], b[1..]);
      LexLessTrichotomy(a[1..], a[1..]);
      if a[0] == b[0] && a[1..] == b[1..] {
        assert a == [a[0]] + a[1..] && b == [b[0]] + b[1..];
      }
    }
  }

  /** Field lists that agree on their first `k` entries compare as their remainders do. */
  lemma {:induction false} LexLessPastCommonPrefix(a: seq<int>, b: seq<int>, k: nat)
    requires |a| == |b| && k <= |a| && a[..k] == b[..k]
    ensures LexLess(a, b) == LexLess(a[k..], b[k..])
    decreases k
  {
    if k > 0 {
      assert a[0] == a[..k][0] && b[0] == b[..k][0];
      assert a[1..][..k - 1] == a[..k][1..] && b[1..][..k - 1] == b[..k][1..];
      LexLessPastCommonPrefix(a[1..], b[1..], k - 1);
      assert a[1..][k - 1..] == a[k..] && b[1..][k - 1..] == b[k..];
    }
  }

  /** `Before` is a strict total order on datetimes. */
  lemma BeforeIsStrictTotalOrder(a: DateTime, b: DateTime, c: DateTime)
    ensures !Before(a, a)
    ensures a == b || Before(a, b) || Before(b, a)
    ensures Before(a, b) && Before(b, c) ==> Before(a, c)
  {
    LexLessTrichotomy(a.Fields(), a.Fields());
    LexLessTrichotomy(a.Fields(), b.Fields());
    if a.Fields() == b.Fields() {
      assert a.year == b.year && a.month == b.month && a.day == b.day && a.hour == b.hour;
      assert a.minute == b.minute && a.second == b.second && a.microsecond == b.microsecond;
    }
    if Before(a, b) && Before(b, c) {
      LexLessTransitive(a.Fields(), b.Fields(), c.Fields());
    }
  }

  /** Not after, that is `<=`, is transitive. */
  lemma NotBeforeTransitive(a: DateTime, b: DateTime, c: DateTime)
    requires !Before(b, a) && !Before(c, b)
    ensures !Before(c, a)
  {
    BeforeIsStrictTotalOrder(a, b, c);
    BeforeIsStrictTotalOrder(b, c, a);
    BeforeIsStrictTotalOrder(c, a, b);
  }
}
