/** The orders SQL sorts by: text under the BINARY collation, and pairs
    (timestamp, text) sorted `ORDER BY at DESC, id DESC`. */
module Ordering {

  /** Lexicographic order on text. */
  predicate Less(a: string, b: string) {
    if b == "" then false
    else if a == "" then true
    else a[0] < b[0] || (a[0] == b[0] && Less(a[1..], b[1..]))
  }

  lemma {:induction false} LessIrreflexive(a: string)
    ensures !Less(a, a)
  {
    if a != "" { LessIrreflexive(a[1..]); }
  }

  lemma {:induction false} LessTransitive(a: string, b: string, c: string)
    requires Less(a, b) && Less(b, c)
    ensures Less(a, c)
  {
    if a != "" && a[0] == b[0] == c[0] { LessTransitive(a[1..], b[1..], c[1..]); }
  }

  lemma {:induction false} LessTotal(a: string, b: string)
    ensures a == b || Less(a, b) || Less(b, a)
  {
    if a != "" && b != "" && a[0] == b[0] {
      LessTotal(a[1..], b[1..]);
      assert a == [a[0]] + a[1..] && b == [b[0]] + b[1..];
    }
  }

  /** The sort key of a row: a timestamp with the row's text id as tie-breaker. */
  datatype Stamp = Stamp(at: int, id: string)

  /** `a` is listed before `b` by `ORDER BY at DESC, id DESC`. */
  predicate Ahead(a: Stamp, b: Stamp) {
    a.at > b.at || (a.at == b.at && Less(b.id, a.id))
  }

  lemma AheadIsStrictTotal(a: Stamp, b: Stamp, c: Stamp)
    ensures !Ahead(a, a)
    ensures Ahead(a, b) && Ahead(b, c) ==> Ahead(a, c)
    ensures a == b || Ahead(a, b) || Ahead(b, a)
    ensures !(Ahead(a, b) && Ahead(b, a))
  {
    LessIrreflexive(a.id);
    LessTotal(a.id, b.id);
    if a.at == b.at && Less(b.id, a.id) {
      if Less(a.id, b.id) { LessTransitive(a.id, b.id, a.id); }
      if b.at == c.at && Less(c.id, b.id) { LessTransitive(c.id, b.id, a.id); }
    }
  }

  /** The rows listed before `x`. */
  function AheadOf(s: set<Stamp>, x: Stamp): set<Stamp> {
    set y | y in s && Ahead(y, x)
  }

  /** What `DELETE ... WHERE id IN (SELECT ... ORDER BY at DESC, id DESC LIMIT -1 OFFSET n)` keeps:
      the rows that fewer than `n` rows precede. */
  function Top(s: set<Stamp>, n: nat): (kept: set<Stamp>)
    ensures kept <= s
  {
    set x | x in s && |AheadOf(s, x)| < n
  }

  lemma {:induction false} SubsetSize<T>(a: set<T>, b: set<T>)
    requires a <= b
    ensures |a| <= |b|
  {
    if a != {} {
      var x :| x in a;
      SubsetSize(a - {x}, b - {x});
    }
  }

  /** A non-empty table has a first row. */
  lemma {:induction false} FirstExists(s: set<Stamp>) returns (m: Stamp)
    requires s != {}
    ensures m in s && AheadOf(s, m) == {}
    decreases |s|
  {
    var x :| x in s;
    var rest := s - {x};
    if rest == {} {
      m := x;
      AheadIsStrictTotal(x, x, x);
    } else {
      var f := FirstExists(rest);
      AheadIsStrictTotal(x, f, x);
      AheadIsStrictTotal(x, x, x);
      m := if Ahead(x, f) then x else f;
      forall y | y in s ensures !Ahead(y, m) {
        AheadIsStrictTotal(y, m, f);
        AheadIsStrictTotal(y, x, f);
        if y in rest { assert y !in AheadOf(rest, f); }
      }
    }
  }

  /** Setting the first row aside leaves one place fewer for the others. */
  lemma RankBehindFirst(s: set<Stamp>, m: Stamp, x: Stamp)
    requires m in s && AheadOf(s, m) == {} && x in s - {m}
    ensures |AheadOf(s, x)| == 1 + |AheadOf(s - {m}, x)|
  {
    AheadIsStrictTotal(m, x, m);
    assert x !in AheadOf(s, m);
    assert AheadOf(s, x) == {m} + AheadOf(s - {m}, x);
  }

  lemma TopBehindFirst(s: set<Stamp>, m: Stamp, n: nat)
    requires m in s && AheadOf(s, m) == {} && n > 0
    ensures |Top(s, n)| == 1 + |Top(s - {m}, n - 1)|
  {
    forall x | x in s - {m} ensures x in Top(s, n) <==> x in Top(s - {m}, n - 1) {
      RankBehindFirst(s, m, x);
    }
    assert Top(s, n) == {m} + Top(s - {m}, n - 1);
  }

  /** Within the limit nothing is cut off. */
  lemma TopOfFew(s: set<Stamp>, n: nat)
    requires |s| <= n
    ensures Top(s, n) == s
  {
    forall x | x in s ensures x in Top(s, n) {
      AheadIsStrictTotal(x, x, x);
      SubsetSize(AheadOf(s, x), s - {x});
    }
  }

  lemma TopOfNone(s: set<Stamp>, n: nat)
    requires s == {} || n == 0
    ensures |Top(s, n)| == 0
  {
    assert Top(s, n) == {};
  }

  /** Exactly min(n, |s|) rows are kept. */
  lemma {:induction false} TopSize(s: set<Stamp>, n: nat)
    ensures |Top(s, n)| == if |s| <= n then |s| else n
    decreases |s|
  {
    if s == {} || n == 0 {
      TopOfNone(s, n);
    } else {
      var m := FirstExists(s);
      TopBehindFirst(s, m, n);
      TopSize(s - {m}, n - 1);
    }
  }

  /** A row that was cut off is preceded by a full set of kept rows. */
  lemma CutOffIsBehindKept(s: set<Stamp>, n: nat, z: Stamp)
    requires z in s - Top(s, n)
    ensures |AheadOf(Top(s, n), z)| == n
  {
    assert |AheadOf(s, z)| >= n;
    SubsetSize(AheadOf(s, z), s);
    TopSize(s, n);
    assert AheadOf(Top(s, n), z) == Top(s, n) by {
      forall x | x in Top(s, n) ensures Ahead(x, z) {
        AheadIsStrictTotal(x, z, x);
        if Ahead(z, x) {
          forall y | y in AheadOf(s, z) ensures y in AheadOf(s, x) {
            AheadIsStrictTotal(y, z, x);
          }
          SubsetSize(AheadOf(s, z), AheadOf(s, x));
        }
      }
    }
  }

  /** Cutting to `n` rows after each insertion loses nothing: it equals one cut over everything. */
  lemma TopStreams(s: set<Stamp>, x: Stamp, n: nat)
    ensures Top(Top(s, n) + {x}, n) == Top(s + {x}, n)
  {
    var kept := Top(s, n) + {x};
    var all := s + {x};
    forall y | y in Top(all, n) ensures y in Top(kept, n) {
      SubsetSize(AheadOf(s, y), AheadOf(all, y));
      SubsetSize(AheadOf(kept, y), AheadOf(all, y));
    }
    forall y | y in Top(kept, n) ensures y in Top(all, n) {
      if z :| z in AheadOf(all, y) && z !in kept {
        CutOffIsBehindKept(s, n, z);
        forall w | w in AheadOf(Top(s, n), z) ensures w in AheadOf(kept, y) {
          AheadIsStrictTotal(w, z, y);
        }
        SubsetSize(AheadOf(Top(s, n), z), AheadOf(kept, y));
        assert false;
      } else {
        assert AheadOf(all, y) == AheadOf(kept, y);
      }
    }
  }
}
