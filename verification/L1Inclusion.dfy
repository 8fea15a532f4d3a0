/**
 The stack property of the L1 cache: under one request stream, a cache with a larger bound never
 misses where a smaller one hits.
 */
module L1Inclusion {
  import opened Basics
  import opened L1Order

  /** `s` is `l` with some entries left out, the others in the same order. */
  ghost predicate Sub(s: Order, l: Order) {
    s == [] || (l != [] && ((s[0] == l[0] && Sub(s[1..], l[1..])) || Sub(s, l[1..])))
  }

  lemma {:induction false} SubIn(s: Order, l: Order)
    requires Sub(s, l)
    ensures forall e :: e in s ==> e in l
    ensures |s| <= |l|
  {
    if s != [] {
      assert forall e :: e in s ==> e == s[0] || e in s[1..];
      if s[0] == l[0] && Sub(s[1..], l[1..]) {
        SubIn(s[1..], l[1..]);
      } else {
        SubIn(s, l[1..]);
      }
    }
  }

  lemma {:induction false} SubWithout(s: Order, l: Order, key: Key)
    requires Sub(s, l)
    ensures Sub(Without(s, key), Without(l, key))
  {
    if s != [] {
      if s[0] == l[0] && Sub(s[1..], l[1..]) {
        SubWithout(s[1..], l[1..], key);
      } else {
        SubWithout(s, l[1..], key);
      }
      var wl := Without(l, key);
      assert wl == Without(l[1..], key) || wl[1..] == Without(l[1..], key);
    }
  }

  /** Dropping the last entry of both lists: the longer one's victim is never a survivor of the shorter. */
  lemma {:induction false} SubDropLast(s: Order, l: Order)
    requires Sub(s, l) && s != []
    ensures l != [] && Sub(s[..|s| - 1], l[..|l| - 1])
  {
    var s', l' := s[..|s| - 1], l[..|l| - 1];
    if s[0] == l[0] && Sub(s[1..], l[1..]) {
      if |s| > 1 {
        SubDropLast(s[1..], l[1..]);
        assert s'[1..] == s[1..][..|s| - 2] && l'[1..] == l[1..][..|l| - 2];
      }
    } else {
      SubDropLast(s, l[1..]);
      assert l'[1..] == l[1..][..|l| - 2];
    }
  }

  lemma {:induction false} SubDropLastLeft(s: Order, l: Order)
    requires Sub(s, l) && s != []
    ensures Sub(s[..|s| - 1], l)
  {
    var s' := s[..|s| - 1];
    if s[0] == l[0] && Sub(s[1..], l[1..]) {
      if |s| > 1 {
        SubDropLastLeft(s[1..], l[1..]);
        assert s'[1..] == s[1..][..|s| - 2];
      }
    } else {
      SubDropLastLeft(s, l[1..]);
    }
  }

  lemma SubFind(s: Order, l: Order, key: Key)
    requires Sub(s, l) && UniqueKeys(l) && Find(s, key).Some?
    ensures Find(l, key) == Find(s, key)
  {
    FindIn(s, key);
    SubIn(s, l);
    var i :| 0 <= i < |l| && l[i] == Entry(key, Find(s, key).value);
    FindAt(l, i);
  }

  lemma {:induction false} WithoutSize(o: Order, key: Key)
    requires UniqueKeys(o)
    ensures |Without(o, key)| == |o| - (if Find(o, key).Some? then 1 else 0)
  {
    FindAbsent(o, key);
    if Find(o, key).Some? {
      var i :| 0 <= i < |o| && o[i].key == key;
      FindAt(o, i);
    }
  }

  // ---------------------------------------------------------------------------------------------

  /** The requests of one stream; the bound of the cache is added when the stream is played. */
  datatype Request = GetReq(key: Key, now: Time) | SetReq(key: Key, value: KeyValue) | ClearReq

  function Bounded(r: Request, maxEntries: int): Op {
    match r
    case GetReq(key, now) => GetOp(key, now)
    case SetReq(key, value) => SetOp(key, value, maxEntries)
    case ClearReq => ClearOp
  }

  function Play(rs: seq<Request>, maxEntries: int): Order {
    if rs == [] then [] else Apply(Play(rs[..|rs| - 1], maxEntries), Bounded(rs[|rs| - 1], maxEntries))
  }

  function Operations(rs: seq<Request>, maxEntries: int): seq<Op> {
    seq(|rs|, i requires 0 <= i < |rs| => Bounded(rs[i], maxEntries))
  }

  /** Playing a stream on a cache is running its operations, as the map and the ring do. */
  lemma {:induction false} PlayIsRun(rs: seq<Request>, maxEntries: int)
    ensures Play(rs, maxEntries) == Run(Operations(rs, maxEntries))
  {
    if rs != [] {
      PlayIsRun(rs[..|rs| - 1], maxEntries);
      var ops := Operations(rs, maxEntries);
      assert ops[..|ops| - 1] == Operations(rs[..|rs| - 1], maxEntries);
    }
  }

  /** The list of the smaller cache is contained in that of the larger, which is not too much longer. */
  ghost predicate Included(small: Order, large: Order, c1: int, c2: int) {
    && UniqueKeys(small) && UniqueKeys(large)
    && Sub(small, large)
    && |small| <= Max(c1, 0)
    && |large| - |small| <= Max(c2, 0) - Max(c1, 0)
  }

  lemma GetIncluded(small: Order, large: Order, key: Key, now: Time, c1: int, c2: int)
    requires c1 <= c2 && Included(small, large, c1, c2)
    ensures Sub(Get(small, key, now).0, Get(large, key, now).0)
    ensures |Get(large, key, now).0| - |Get(small, key, now).0| <= Max(c2, 0) - Max(c1, 0)
    ensures Get(small, key, now).1.Some? ==> Get(large, key, now).1 == Get(small, key, now).1
  {
    SubWithout(small, large, key);
    WithoutSize(small, key);
    WithoutSize(large, key);
    if Find(small, key).Some? {
      SubFind(small, large, key);
    } else {
      FindAbsent(small, key);
    }
  }

  lemma SetIncluded(small: Order, large: Order, key: Key, value: KeyValue, c1: int, c2: int)
    requires c1 <= c2 && Included(small, large, c1, c2)
    ensures Sub(Set(small, key, value, c1), Set(large, key, value, c2))
    ensures |Set(large, key, value, c2)| - |Set(small, key, value, c1)| <= Max(c2, 0) - Max(c1, 0)
  {
    SubWithout(small, large, key);
    WithoutSize(small, key);
    WithoutSize(large, key);
    FindAbsent(small, key);
    if Find(small, key).Some? {
      SubFind(small, large, key);
    } else if c1 > 0 && |small| >= c1 {
      SubDropLastLeft(small, large);
      SubDropLast(small, large);
      SubWithout(small[..|small| - 1], large, key);
      FindAbsent(small[..|small| - 1], key);
    }
  }

  lemma {:induction false} PlayIncluded(rs: seq<Request>, c1: int, c2: int)
    requires c1 <= c2
    ensures Included(Play(rs, c1), Play(rs, c2), c1, c2)
  {
    if rs != [] {
      var before, r := rs[..|rs| - 1], rs[|rs| - 1];
      PlayIncluded(before, c1, c2);
      UniqueAfter(Play(before, c1), Bounded(r, c1));
      UniqueAfter(Play(before, c2), Bounded(r, c2));
      match r
      case GetReq(key, now) =>
        GetIncluded(Play(before, c1), Play(before, c2), key, now, c1, c2);
        WithoutSize(Play(before, c1), key);
      case SetReq(key, value) =>
        SetIncluded(Play(before, c1), Play(before, c2), key, value, c1, c2);
        SetSize(Play(before, c1), key, value, c1);
      case ClearReq =>
    }
  }

  /** LRU inclusion: every hit of the smaller cache is a hit of the larger, with the same value. */
  lemma LargerCacheKeepsEveryHit(rs: seq<Request>, c1: int, c2: int, key: Key, now: Time)
    requires c1 <= c2
    ensures Sub(Play(rs, c1), Play(rs, c2))
    ensures Get(Play(rs, c1), key, now).1.Some? ==>
              Get(Play(rs, c2), key, now).1 == Get(Play(rs, c1), key, now).1
  {
    PlayIncluded(rs, c1, c2);
    GetIncluded(Play(rs, c1), Play(rs, c2), key, now, c1, c2);
  }

  function Hits(rs: seq<Request>, maxEntries: int): nat {
    if rs == [] then 0
    else
      var before, r := rs[..|rs| - 1], rs[|rs| - 1];
      Hits(before, maxEntries)
      + (if r.GetReq? && Get(Play(before, maxEntries), r.key, r.now).1.Some? then 1 else 0)
  }

  predicate AnsweredIn(rs: seq<Request>, maxEntries: int, i: nat) {
    i < |rs| && rs[i].GetReq? && Get(Play(rs[..i], maxEntries), rs[i].key, rs[i].now).1.Some?
  }

  /** The requests of the stream that are answered. */
  function AnsweredAt(rs: seq<Request>, maxEntries: int): set<nat> {
    set i: nat | i < |rs| && AnsweredIn(rs, maxEntries, i)
  }

  lemma {:induction false} HitsAreAnswers(rs: seq<Request>, maxEntries: int)
    ensures Hits(rs, maxEntries) == |AnsweredAt(rs, maxEntries)|
  {
    if rs != [] {
      var last := |rs| - 1;
      HitsAreAnswers(rs[..last], maxEntries);
      LastAnswered(rs, maxEntries);
    }
  }

  lemma PrefixAnswered(rs: seq<Request>, maxEntries: int, i: nat)
    requires rs != []
    ensures i < |rs| - 1 ==> AnsweredIn(rs[..|rs| - 1], maxEntries, i) == AnsweredIn(rs, maxEntries, i)
  {
    if i < |rs| - 1 {
      assert rs[..|rs| - 1][..i] == rs[..i];
    }
  }

  lemma OneMore(fewer: set<nat>, more: set<nat>, last: nat, added: bool)
    requires last !in fewer && forall i :: i in more <==> i in fewer || (i == last && added)
    ensures |more| == |fewer| + if added then 1 else 0
  {
    assert more == fewer + if added then {last} else {};
  }

  lemma LastAnswered(rs: seq<Request>, maxEntries: int)
    requires rs != []
    ensures
      var last := |rs| - 1;
      |AnsweredAt(rs, maxEntries)|
      == |AnsweredAt(rs[..last], maxEntries)| + if AnsweredIn(rs, maxEntries, last) then 1 else 0
  {
    var last := |rs| - 1;
    var fewer, more := AnsweredAt(rs[..last], maxEntries), AnsweredAt(rs, maxEntries);
    forall i: nat ensures i in more <==> i in fewer || (i == last && AnsweredIn(rs, maxEntries, last)) {
      PrefixAnswered(rs, maxEntries, i);
    }
    OneMore(fewer, more, last, AnsweredIn(rs, maxEntries, last));
  }

  /** So the number of hits grows with the bound: L1 has no Belady anomaly, expiry included. */
  lemma {:induction false} HitsGrowWithBound(rs: seq<Request>, c1: int, c2: int)
    requires c1 <= c2
    ensures Hits(rs, c1) <= Hits(rs, c2)
  {
    if rs != [] {
      var before, r := rs[..|rs| - 1], rs[|rs| - 1];
      HitsGrowWithBound(before, c1, c2);
      if r.GetReq? {
        LargerCacheKeepsEveryHit(before, c1, c2, r.key, r.now);
      }
    }
  }
}
