/** Sort keys. Every stable sort in the system orders positions by at most three
    integers; adding the position itself makes the order strict, so the stable result
    is the one ascending arrangement of the keys. */
module Keys {

  datatype Key = Key(a: int, b: int, c: int, idx: nat)

  predicate Less(x: Key, y: Key) {
    || x.a < y.a
    || (x.a == y.a && x.b < y.b)
    || (x.a == y.a && x.b == y.b && x.c < y.c)
    || (x.a == y.a && x.b == y.b && x.c == y.c && x.idx < y.idx)
  }

  /** No key of `s` comes before `k`. */
  ghost predicate Below(k: Key, s: seq<Key>) {
    forall x :: x in s ==> !Less(x, k)
  }

  ghost predicate Ascending(s: seq<Key>) {
    s != [] ==> Below(s[0], s[1..]) && Ascending(s[1..])
  }

  function Insert(k: Key, s: seq<Key>): (r: seq<Key>)
    ensures |r| == |s| + 1
  {
    if s == [] then [k]
    else if Less(s[0], k) then [s[0]] + Insert(k, s[1..])
    else [k] + s
  }

  function Sort(s: seq<Key>): (r: seq<Key>)
    ensures |r| == |s|
  {
    if s == [] then [] else Insert(s[0], Sort(s[1..]))
  }

  lemma {:induction false} InsertMembers(k: Key, s: seq<Key>)
    ensures forall x :: x in Insert(k, s) <==> x == k || x in s
  {
    if s != [] {
      InsertMembers(k, s[1..]);
    }
  }

  lemma {:induction false} InsertAscending(k: Key, s: seq<Key>)
    requires Ascending(s)
    ensures Ascending(Insert(k, s))
  {
    if s != [] {
      var rest := s[1..];
      if Less(s[0], k) {
        InsertAscending(k, rest);
        InsertMembers(k, rest);
        assert Insert(k, s)[1..] == Insert(k, rest);
      } else {
        assert Insert(k, s)[1..] == s;
        forall x | x in s ensures !Less(x, k) {
          HeadBelow(s, x);
        }
      }
    }
  }

  lemma {:induction false} InsertMultiset(k: Key, s: seq<Key>)
    ensures multiset(Insert(k, s)) == multiset(s) + multiset{k}
  {
    if s != [] {
      InsertMultiset(k, s[1..]);
      assert s == [s[0]] + s[1..];
    }
  }

  /** Sorting arranges the same keys in ascending order. */
  lemma {:induction false} SortAscending(s: seq<Key>)
    ensures Ascending(Sort(s))
    ensures multiset(Sort(s)) == multiset(s)
  {
    if s != [] {
      assert s == [s[0]] + s[1..];
      SortAscending(s[1..]);
      InsertAscending(s[0], Sort(s[1..]));
      InsertMultiset(s[0], Sort(s[1..]));
    }
  }

  lemma SortMembers(s: seq<Key>)
    ensures forall k :: k in Sort(s) <==> k in s
  {
    SortAscending(s);
    forall k ensures k in Sort(s) <==> k in s {
      assert k in Sort(s) <==> k in multiset(Sort(s));
      assert k in s <==> k in multiset(s);
    }
  }

  lemma HeadBelow(s: seq<Key>, k: Key)
    requires s != [] && Ascending(s) && k in s
    ensures !Less(k, s[0])
  {
    assert k == s[0] || k in s[1..];
  }

  lemma TailMultiset(s: seq<Key>)
    requires s != []
    ensures multiset(s[1..]) == multiset(s) - multiset{s[0]}
  {
    assert s == [s[0]] + s[1..];
  }

  /** An ascending arrangement is unique: the order is strict on distinct keys. */
  lemma {:induction false} AscendingUnique(s: seq<Key>, t: seq<Key>)
    requires Ascending(s) && Ascending(t)
    requires multiset(s) == multiset(t)
    ensures s == t
  {
    assert |s| == |multiset(s)| && |t| == |multiset(t)|;
    if s != [] {
      assert s[0] in multiset(t) && t[0] in multiset(s);
      HeadBelow(s, t[0]);
      HeadBelow(t, s[0]);
      TailMultiset(s);
      TailMultiset(t);
      AscendingUnique(s[1..], t[1..]);
    }
  }

  // --- Sorting commutes with dropping keys and with renumbering positions. ---

  /** The keys whose position is in `keep`, order kept. */
  ghost function Keep(s: seq<Key>, keep: set<nat>): seq<Key> {
    if s == [] then []
    else if s[0].idx in keep then [s[0]] + Keep(s[1..], keep)
    else Keep(s[1..], keep)
  }

  lemma {:induction false} KeepMembers(s: seq<Key>, keep: set<nat>)
    ensures forall k :: k in Keep(s, keep) <==> k in s && k.idx in keep
  {
    if s != [] {
      KeepMembers(s[1..], keep);
    }
  }

  lemma InsertFront(k: Key, s: seq<Key>)
    requires Below(k, s)
    ensures Insert(k, s) == [k] + s
  {
    if s != [] {
      assert s[0] in s;
      if Less(s[0], k) { assert false; }
    }
  }

  lemma {:induction false} InsertKeep(k: Key, s: seq<Key>, keep: set<nat>)
    requires Ascending(s)
    ensures Keep(Insert(k, s), keep) == if k.idx in keep then Insert(k, Keep(s, keep)) else Keep(s, keep)
  {
    if s != [] {
      if Less(s[0], k) {
        InsertKeep(k, s[1..], keep);
        assert Insert(k, s)[1..] == Insert(k, s[1..]);
        if s[0].idx in keep {
          assert Keep(s, keep)[1..] == Keep(s[1..], keep);
        }
      } else {
        assert Insert(k, s)[1..] == s;
        KeepMembers(s, keep);
        forall x | x in Keep(s, keep) ensures !Less(x, k) {
          HeadBelow(s, x);
        }
        InsertFront(k, Keep(s, keep));
      }
    }
  }

  lemma {:induction false} SortKeep(s: seq<Key>, keep: set<nat>)
    ensures Sort(Keep(s, keep)) == Keep(Sort(s), keep)
  {
    if s != [] {
      SortKeep(s[1..], keep);
      SortAscending(s[1..]);
      InsertKeep(s[0], Sort(s[1..]), keep);
      if s[0].idx in keep {
        assert Keep(s, keep)[1..] == Keep(s[1..], keep);
      }
    }
  }

  /** Positions after one at `gone` has been taken out. */
  function Shifted(i: nat, gone: nat): nat {
    if i > gone then i - 1 else i
  }

  function Renumber(s: seq<Key>, gone: nat): (r: seq<Key>)
    ensures |r| == |s|
    ensures forall i :: 0 <= i < |s| ==> r[i] == s[i].(idx := Shifted(s[i].idx, gone))
  {
    if s == [] then [] else [s[0].(idx := Shifted(s[0].idx, gone))] + Renumber(s[1..], gone)
  }

  lemma {:induction false} InsertRenumber(k: Key, s: seq<Key>, gone: nat)
    requires k.idx != gone && forall x :: x in s ==> x.idx != gone
    ensures Renumber(Insert(k, s), gone) == Insert(k.(idx := Shifted(k.idx, gone)), Renumber(s, gone))
  {
    if s != [] {
      InsertRenumber(k, s[1..], gone);
      assert Renumber(s, gone)[1..] == Renumber(s[1..], gone);
      if Less(s[0], k) {
        assert Insert(k, s)[1..] == Insert(k, s[1..]);
      } else {
        assert Insert(k, s)[1..] == s;
      }
    }
  }

  lemma {:induction false} SortRenumber(s: seq<Key>, gone: nat)
    requires forall x :: x in s ==> x.idx != gone
    ensures Sort(Renumber(s, gone)) == Renumber(Sort(s), gone)
  {
    if s != [] {
      SortRenumber(s[1..], gone);
      SortMembers(s[1..]);
      InsertRenumber(s[0], Sort(s[1..]), gone);
      assert Renumber(s, gone)[1..] == Renumber(s[1..], gone);
    }
  }
}
