/** Listing a set of strings in increasing byte order, as sort.Strings leaves the keys
    of a map whatever order they were collected in. */
module Sorting {
  import opened Text

  predicate Increasing(s: seq<string>)
  {
    forall i, j :: 0 <= i < j < |s| ==> Less(s[i], s[j])
  }

  function Members(s: seq<string>): set<string>
  {
    set i | 0 <= i < |s| :: s[i]
  }

  predicate IsLeast(k: string, ks: set<string>)
  {
    k in ks && forall x :: x in ks ==> x == k || Less(k, x)
  }

  lemma {:induction false} LeastExists(ks: set<string>)
    requires ks != {}
    ensures exists k :: IsLeast(k, ks)
  {
    var x :| x in ks;
    var rest := ks - {x};
    assert ks == rest + {x};
    if rest == {} {
      assert IsLeast(x, ks);
    } else {
      LeastExists(rest);
      var k :| IsLeast(k, rest);
      LessTotal(x, k);
      if Less(x, k) {
        forall y | y in ks ensures y == x || Less(x, y) {
          if y != x && y != k { LessTransitive(x, k, y); }
        }
        assert IsLeast(x, ks);
      } else {
        assert IsLeast(k, ks);
      }
    }
  }

  lemma LeastUnique(j: string, k: string, ks: set<string>)
    requires IsLeast(j, ks) && IsLeast(k, ks)
    ensures j == k
  {
    LessTotal(j, k);
  }

  function Least(ks: set<string>): (k: string)
    requires ks != {}
    ensures IsLeast(k, ks)
  {
    LeastExists(ks);
    assert forall j, k :: IsLeast(j, ks) && IsLeast(k, ks) ==> j == k by {
      forall j, k | IsLeast(j, ks) && IsLeast(k, ks) { LeastUnique(j, k, ks); }
    }
    var k :| k in ks && IsLeast(k, ks); k
  }

  /** The elements in increasing order. */
  function Sorted(ks: set<string>): (s: seq<string>)
    ensures |s| == |ks|
  {
    if ks == {} then [] else [Least(ks)] + Sorted(ks - {Least(ks)})
  }

  lemma MembersCons(k: string, rest: seq<string>)
    ensures Members([k] + rest) == {k} + Members(rest)
  {
    var s := [k] + rest;
    assert s[0] == k;
    forall x | x in Members(rest) ensures x in Members(s) {
      var i :| 0 <= i < |rest| && rest[i] == x;
      assert s[i + 1] == x;
    }
    forall x | x in Members(s) ensures x in {k} + Members(rest) {
      var i :| 0 <= i < |s| && s[i] == x;
      if i > 0 { assert rest[i - 1] == x; }
    }
  }

  lemma ConsListing(k: string, rest: seq<string>, ks: set<string>)
    requires IsLeast(k, ks) && Increasing(rest) && Members(rest) == ks - {k}
    ensures Increasing([k] + rest) && Members([k] + rest) == ks
  {
    MembersCons(k, rest);
    var s := [k] + rest;
    forall i, j | 0 <= i < j < |s| ensures Less(s[i], s[j]) {
      assert rest[j - 1] in Members(rest);
    }
  }

  lemma {:induction false} SortedListing(ks: set<string>)
    ensures Increasing(Sorted(ks)) && Members(Sorted(ks)) == ks
  {
    if ks != {} {
      SortedListing(ks - {Least(ks)});
      ConsListing(Least(ks), Sorted(ks - {Least(ks)}), ks);
    }
  }

  lemma TailMembers(s: seq<string>)
    requires Increasing(s) && s != []
    ensures Members(s[1..]) == Members(s) - {s[0]}
  {
    LessTotal(s[0], s[0]);
    forall x | x in Members(s) - {s[0]} ensures x in Members(s[1..]) {
      var i :| 0 <= i < |s| && s[i] == x;
      assert s[1..][i - 1] == x;
    }
    forall x | x in Members(s[1..]) ensures x in Members(s) - {s[0]} {
      var i :| 0 <= i < |s[1..]| && s[1..][i] == x;
      assert s[i + 1] == x && Less(s[0], s[i + 1]);
    }
  }
}
