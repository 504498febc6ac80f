/** The list operations the form applies to its bullet and asteroid lists:
    removing every element of a given set while keeping the others in order
    (what the form's remove-all-marked step does), and the distinctness the
    lists keep because every entity in them is a separately created object. */
module Lists {

  /** No element occurs twice. Stated element by element from the end, so
      that the pairwise form below is used only where a proof asks for it. */
  ghost predicate Distinct<T>(s: seq<T>) {
    s == [] || (s[|s| - 1] !in s[..|s| - 1] && Distinct(s[..|s| - 1]))
  }

  /** The pairwise form of `Distinct`. */
  lemma {:induction false} DistinctPairs<T>(s: seq<T>)
    ensures Distinct(s) <==> forall i, j :: 0 <= i < j < |s| ==> s[i] != s[j]
  {
    if s != [] {
      var init := s[..|s| - 1];
      DistinctPairs(init);
      assert forall i :: 0 <= i < |init| ==> init[i] == s[i];
      if Distinct(s) {
        forall i, j | 0 <= i < j < |s|
          ensures s[i] != s[j]
        {
          if j == |s| - 1 {
            assert s[i] in init;
          } else {
            assert init[i] != init[j];
          }
        }
      }
      if forall i, j :: 0 <= i < j < |s| ==> s[i] != s[j] {
        assert forall i, j :: 0 <= i < j < |init| ==> init[i] != init[j];
        assert s[|s| - 1] !in init;
      }
    }
  }

  /** `s` with every element that belongs to `dead` removed. */
  function Without<T(==)>(s: seq<T>, dead: set<T>): (r: seq<T>)
    ensures |r| <= |s|
  {
    if s == [] then [] else (if s[0] in dead then [] else [s[0]]) + Without(s[1..], dead)
  }

  /** Exactly the elements of `s` outside `dead` survive. */
  lemma {:induction false} WithoutMembers<T>(s: seq<T>, dead: set<T>)
    ensures forall x :: x in Without(s, dead) <==> x in s && x !in dead
  {
    if s != [] {
      WithoutMembers(s[1..], dead);
      assert s == [s[0]] + s[1..];
    }
  }

  /** `WithoutMembers` by position. */
  lemma WithoutEntries<T>(s: seq<T>, dead: set<T>)
    ensures var r := Without(s, dead);
      && (forall k :: 0 <= k < |r| ==> r[k] in s && r[k] !in dead)
      && (forall k :: 0 <= k < |s| && s[k] !in dead ==> s[k] in r)
  {
    WithoutMembers(s, dead);
    var r := Without(s, dead);
    assert forall k :: 0 <= k < |r| ==> r[k] in r;
  }

  /** Removal distributes over concatenation, so the survivors keep their order. */
  lemma {:induction false} WithoutAppend<T>(a: seq<T>, b: seq<T>, dead: set<T>)
    ensures Without(a + b, dead) == Without(a, dead) + Without(b, dead)
  {
    if a == [] {
      assert a + b == b;
    } else {
      assert (a + b)[1..] == a[1..] + b;
      WithoutAppend(a[1..], b, dead);
    }
  }

  /** Two survivors appear in the result in the order they had in `s`. */
  lemma WithoutKeepsOrder<T>(s: seq<T>, dead: set<T>, i: int, j: int)
    requires 0 <= i < j < |s| && s[i] !in dead && s[j] !in dead
    ensures exists p, q :: 0 <= p < q < |Without(s, dead)| && Without(s, dead)[p] == s[i] && Without(s, dead)[q] == s[j]
  {
    var front, back := s[..j], s[j..];
    assert s == front + back;
    WithoutAppend(front, back, dead);
    assert s[i] in front;
    var wf := Without(front, dead);
    WithoutMembers(front, dead);
    assert s[i] in wf;
    var p :| 0 <= p < |wf| && wf[p] == s[i];
    assert back == [s[j]] + back[1..];
    var q := |wf|;
    assert Without(s, dead)[p] == s[i];
    assert Without(s, dead)[q] == s[j];
  }

  /** Removing elements keeps a list free of duplicates. */
  lemma {:induction false} WithoutDistinct<T>(s: seq<T>, dead: set<T>)
    requires Distinct(s)
    ensures Distinct(Without(s, dead))
  {
    if s != [] {
      DistinctTail(s);
      WithoutDistinct(s[1..], dead);
      WithoutMembers(s[1..], dead);
      DistinctPairs(s);
      assert forall k :: 0 <= k < |s[1..]| ==> s[1..][k] == s[k + 1];
      assert s[0] !in s[1..];
      var rest := Without(s[1..], dead);
      if s[0] in dead {
        assert Without(s, dead) == rest;
      } else {
        assert Without(s, dead) == [s[0]] + rest;
        DistinctPairs(rest);
        DistinctPairs([s[0]] + rest);
      }
    }
  }

  /** In a list without duplicates, no other position holds the element at `i`. */
  lemma DistinctAt<T>(s: seq<T>, i: nat)
    requires Distinct(s) && i < |s|
    ensures forall k :: 0 <= k < |s| && k != i ==> s[k] != s[i]
  {
    DistinctPairs(s);
  }

  lemma DistinctAppend<T>(s: seq<T>, x: T)
    requires Distinct(s) && x !in s
    ensures Distinct(s + [x])
  {
    assert (s + [x])[..|s|] == s;
  }

  lemma DistinctTail<T>(s: seq<T>)
    requires Distinct(s) && s != []
    ensures Distinct(s[1..])
  {
    DistinctPairs(s);
    DistinctPairs(s[1..]);
  }
}
