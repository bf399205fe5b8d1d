/** The ascending enumeration of a finite set of strings. */
module SortedStrings {
  import opened Strings

  ghost predicate AscendingKeys(q: seq<string>) {
    forall i, j :: 0 <= i < j < |q| ==> Less(q[i], q[j])
  }

  ghost predicate Lists(q: seq<string>, s: set<string>) {
    AscendingKeys(q) && forall k :: k in q <==> k in s
  }

  ghost predicate IsLeast(m: string, s: set<string>) {
    m in s && forall k :: k in s && k != m ==> Less(m, k)
  }

  lemma {:induction false} LeastExists(s: set<string>)
    requires s != {}
    ensures exists m :: IsLeast(m, s)
    decreases s
  {
    var x :| x in s;
    if s == {x} {
      assert IsLeast(x, s);
    } else {
      LeastExists(s - {x});
      var m :| IsLeast(m, s - {x});
      LessTotal(m, x);
      if Less(m, x) {
        assert IsLeast(m, s);
      } else {
        forall k | k in s && k != x ensures Less(x, k) {
          if k != m { LessTransitive(x, m, k); }
        }
        assert IsLeast(x, s);
      }
    }
  }

  ghost function Sorted(s: set<string>): (q: seq<string>)
    ensures Lists(q, s)
    decreases s
  {
    if s == {} then []
    else
      LeastExists(s);
      var m :| IsLeast(m, s);
      [m] + Sorted(s - {m})
  }

  lemma {:induction false} ListsUnique(a: seq<string>, b: seq<string>, s: set<string>)
    requires Lists(a, s) && Lists(b, s)
    ensures a == b
    decreases |a|
  {
    assert a != [] ==> a[0] in s;
    assert b != [] ==> b[0] in s;
    if a != [] {
      SameLeast(a, b, s);
      TailLists(a, s);
      TailLists(b, s);
      ListsUnique(a[1..], b[1..], s - {a[0]});
      assert a == [a[0]] + a[1..] && b == [b[0]] + b[1..];
    }
  }

  lemma SameLeast(a: seq<string>, b: seq<string>, s: set<string>)
    requires Lists(a, s) && Lists(b, s) && a != [] && b != []
    ensures a[0] == b[0]
  {
    assert a[0] in b;
    assert b[0] in a;
    var j :| 0 <= j < |b| && b[j] == a[0];
    var i :| 0 <= i < |a| && a[i] == b[0];
    LessIrreflexive(a[0]);
    if i > 0 && j > 0 { LessTransitive(a[0], b[0], a[0]); }
  }

  lemma TailLists(a: seq<string>, s: set<string>)
    requires Lists(a, s) && a != []
    ensures Lists(a[1..], s - {a[0]})
  {
    forall k ensures k in a[1..] <==> k in s - {a[0]} {
      if k in a[1..] {
        var i :| 0 <= i < |a[1..]| && a[1..][i] == k;
        LessIrreflexive(k);
      }
      if k in s && k != a[0] {
        var i :| 0 <= i < |a| && a[i] == k;
        assert a[1..][i - 1] == k;
      }
    }
  }

  /** Enumerations of two sets, one below the other, concatenate. */
  lemma SortedConcat(a: set<string>, b: set<string>)
    requires forall x, y :: x in a && y in b ==> Less(x, y)
    ensures Sorted(a + b) == Sorted(a) + Sorted(b)
  {
    var q := Sorted(a) + Sorted(b);
    forall i, j | 0 <= i < j < |q| ensures Less(q[i], q[j]) {
      if i < |Sorted(a)| { assert q[i] in Sorted(a); }
      if j >= |Sorted(a)| { assert q[j] in Sorted(b); }
    }
    assert Lists(q, a + b);
    ListsUnique(Sorted(a + b), q, a + b);
  }
}
