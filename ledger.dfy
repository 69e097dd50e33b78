/** The ownership ledger: the map from buffer id to entry, and the search for
    an idle entry. The map is ordered by id, so "the first free entry" is the
    one with the least id. */
module Ledger {
  import opened BufferTypes

  ghost predicate Increasing(s: seq<int>)
  {
    forall i, j :: 0 <= i < j < |s| ==> s[i] < s[j]
  }

  /** The ids of the entries the vault itself holds. */
  function FreeIds(m: map<BufferId, Entry>): set<BufferId>
  {
    set k | k in m && m[k].owner == Free
  }

  /** A non-empty set has a member to pick. */
  lemma HasMember(s: set<int>)
    requires s != {}
    ensures exists x :: x in s
  {
    if forall x :: x !in s {
      assert false;
    }
  }

  lemma {:induction false} LeastExists(s: set<int>)
    requires s != {}
    ensures exists k :: k in s && forall j :: j in s ==> k <= j
  {
    HasMember(s);
    var x :| x in s;
    var rest := s - {x};
    if rest != {} {
      LeastExists(rest);
      var m :| m in rest && forall j :: j in rest ==> m <= j;
      assert forall j :: j in s ==> j == x || j in rest;
      if x < m {
        assert forall j :: j in s ==> x <= j;
      } else {
        assert forall j :: j in s ==> m <= j;
      }
    } else {
      assert forall j :: j in s ==> j == x || j in rest;
      assert forall j :: j in s ==> x <= j;
    }
  }

  /** The least element of a non-empty set of ids. */
  ghost function Least(s: set<int>): (k: int)
    requires s != {}
    ensures k in s
    ensures forall j :: j in s ==> k <= j
  {
    LeastExists(s);
    var k :| k in s && forall j :: j in s ==> k <= j; k
  }

  /** The ids of a set in ascending order, as iteration over std::map visits them. */
  ghost function Ascending(s: set<int>): seq<int>
    decreases |s|
  {
    if s == {} then [] else var k := Least(s); [k] + Ascending(s - {k})
  }

  lemma AscendingStep(s: set<int>)
    requires s != {}
    ensures Ascending(s) == [Least(s)] + Ascending(s - {Least(s)})
  {
  }

  lemma IncreasingCons(k: int, tail: seq<int>)
    requires Increasing(tail)
    requires forall i :: 0 <= i < |tail| ==> k < tail[i]
    ensures Increasing([k] + tail)
  {
    var s := [k] + tail;
    forall i, j | 0 <= i < j < |s| ensures s[i] < s[j] {
      assert s[j] == tail[j - 1];
      if i > 0 {
        assert s[i] == tail[i - 1];
      }
    }
  }

  lemma {:induction false} AscendingEnumerates(s: set<int>)
    ensures |Ascending(s)| == |s|
    ensures forall i :: 0 <= i < |Ascending(s)| ==> Ascending(s)[i] in s
    ensures forall k :: k in s ==> k in Ascending(s)
    ensures Increasing(Ascending(s))
    decreases |s|
  {
    if s != {} {
      var k := Least(s);
      var rest := s - {k};
      AscendingEnumerates(rest);
      var tail := Ascending(rest);
      assert Ascending(s) == [k] + tail;
      assert forall i :: 0 <= i < |tail| ==> k < tail[i];
      IncreasingCons(k, tail);
    }
  }

  /** The first free entry of the ordered map, if any. */
  method FindFree(m: map<BufferId, Entry>) returns (r: Option<BufferId>)
    ensures r.None? <==> FreeIds(m) == {}
    ensures r.Some? ==> r.value == Least(FreeIds(m))
  {
    var free := FreeIds(m);
    var todo := free;
    r := None;
    while todo != {}
      invariant todo <= free
      invariant r.None? ==> todo == free
      invariant r.Some? ==> r.value in free && forall j :: j in free && j !in todo ==> r.value <= j
      decreases todo
    {
      HasMember(todo);
      var k :| k in todo;
      if r.None? || k < r.value {
        r := Some(k);
      }
      todo := todo - {k};
    }
    if r.Some? {
      var least := Least(free);
      assert least <= r.value && r.value <= least;
    }
  }
}
