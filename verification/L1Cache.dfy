/**
 The L1 cache as the gateway holds it: a map from keys to the elements of a doubly linked ring with
 a root element, updated in place. Each method is proved against L1Order.
 */
module L1Cache {
  import opened Basics
  import opened L1Order

  /** An element of the recency list together with the CacheEntry only it refers to. */
  class Element {
    const key: Key
    var value: KeyValue
    var prev: Element?
    var next: Element?

    constructor (key: Key, value: KeyValue)
      ensures this.key == key && this.value == value
    {
      this.key, this.value := key, value;
      prev, next := null, null;
    }
  }

  // ---------------------------------------------------------------------------------------------
  // Rings as values

  ghost predicate Apart(ring: seq<Element>, i: nat, j: nat) {
    i < |ring| && j < |ring| && ring[i] != ring[j]
  }

  /** No element occurs twice; stated so that a proof compares two positions only where it says so. */
  ghost predicate Distinct(ring: seq<Element>) {
    forall i, j {:trigger Apart(ring, i, j)} :: 0 <= i < j < |ring| ==> Apart(ring, i, j)
  }

  ghost predicate Stands(e: Element, ring: seq<Element>) {
    exists i :: 0 < i < |ring| && ring[i] == e
  }

  /** `ring` is `root` and behind it, each once, the members of `elements`. */
  ghost predicate Ring(root: Element, elements: set<Element>, ring: seq<Element>) {
    && ring != [] && ring[0] == root && root !in elements && Distinct(ring)
    && (forall e {:trigger Stands(e, ring)} :: e in elements ==> Stands(e, ring))
    && (forall i :: 0 < i < |ring| ==> ring[i] in elements)
  }

  lemma Differ(ring: seq<Element>, k: nat)
    requires Distinct(ring) && k < |ring|
    ensures forall i :: 0 <= i < |ring| && i != k ==> ring[i] != ring[k]
  {
    forall i | 0 <= i < |ring| && i != k ensures ring[i] != ring[k] {
      assert if i < k then Apart(ring, i, k) else Apart(ring, k, i);
    }
  }

  function Cut(ring: seq<Element>, k: nat): seq<Element>
    requires k < |ring|
  {
    ring[..k] + ring[k + 1..]
  }

  lemma CutRing(root: Element, elements: set<Element>, ring: seq<Element>, k: nat)
    requires Ring(root, elements, ring) && 0 < k < |ring|
    ensures Ring(root, elements - {ring[k]}, Cut(ring, k))
  {
    var cut := Cut(ring, k);
    Differ(ring, k);
    forall e | e in elements && e != ring[k] ensures Stands(e, cut) {
      assert Stands(e, ring);
      var i :| 0 < i < |ring| && ring[i] == e;
      assert cut[if i < k then i else i - 1] == e;
    }
    forall i, j | 0 <= i < j < |cut| ensures Apart(cut, i, j) {
      assert Apart(ring, if i < k then i else i + 1, if j < k then j else j + 1);
    }
  }

  function Cons(ring: seq<Element>, e: Element): seq<Element>
    requires ring != []
  {
    [ring[0], e] + ring[1..]
  }

  lemma ConsRing(root: Element, elements: set<Element>, ring: seq<Element>, e: Element)
    requires Ring(root, elements, ring) && e != root && e !in elements
    ensures Ring(root, elements + {e}, Cons(ring, e))
  {
    var cons := Cons(ring, e);
    forall x | x in elements + {e} ensures Stands(x, cons) {
      if x == e {
        assert cons[1] == e;
      } else {
        assert Stands(x, ring);
        var i :| 0 < i < |ring| && ring[i] == x;
        assert cons[i + 1] == x;
      }
    }
    forall i, j | 0 <= i < j < |cons| ensures Apart(cons, i, j) {
      if i != 1 && j != 1 {
        assert Apart(ring, if i == 0 then 0 else i - 1, j - 1);
      }
    }
  }

  // ---------------------------------------------------------------------------------------------
  // Links

  function Next(i: nat, n: nat): nat {
    if i + 1 < n then i + 1 else 0
  }

  function Prev(i: nat, n: nat): int {
    if i > 0 then i - 1 else n - 1
  }

  ghost predicate Linked(ring: seq<Element>)
    reads ring`next, ring`prev
  {
    && (forall i {:trigger ring[i].next} :: 0 <= i < |ring| ==> ring[i].next == ring[Next(i, |ring|)])
    && (forall i {:trigger ring[i].prev} :: 0 <= i < |ring| ==> ring[i].prev == ring[Prev(i, |ring|)])
  }

  /** The neighbours of position `k` skip it, the other links are those of the ring. */
  lemma CutLinked(ring: seq<Element>, k: nat)
    requires 0 < k < |ring|
    requires forall i :: 0 <= i < |ring| && i != k && i != k - 1 ==> ring[i].next == ring[Next(i, |ring|)]
    requires forall i :: 0 <= i < |ring| && i != k && i != Next(k, |ring|) ==> ring[i].prev == ring[Prev(i, |ring|)]
    requires ring[k - 1].next == ring[Next(k, |ring|)] && ring[Next(k, |ring|)].prev == ring[k - 1]
    ensures Linked(Cut(ring, k))
  {
    var cut := Cut(ring, k);
    forall i | 0 <= i < |cut|
      ensures cut[i].next == cut[Next(i, |cut|)] && cut[i].prev == cut[Prev(i, |cut|)]
    {
      assert cut[i] == ring[if i < k then i else i + 1];
    }
  }

  /** `e` sits between the root and what followed it, the other links are those of the ring. */
  lemma ConsLinked(ring: seq<Element>, e: Element)
    requires ring != []
    requires forall i :: 0 < i < |ring| ==> ring[i].next == ring[Next(i, |ring|)]
    requires forall i :: 0 <= i < |ring| && i != Next(0, |ring|) ==> ring[i].prev == ring[Prev(i, |ring|)]
    requires ring[0].next == e && e.prev == ring[0]
    requires e.next == ring[Next(0, |ring|)] && ring[Next(0, |ring|)].prev == e
    ensures Linked(Cons(ring, e))
  {
    var cons := Cons(ring, e);
    forall i | 0 <= i < |cons|
      ensures cons[i].next == cons[Next(i, |cons|)] && cons[i].prev == cons[Prev(i, |cons|)]
    {
      assert i > 1 ==> cons[i] == ring[i - 1];
    }
  }

  /** A list of elements as a ring closed by `root`, which is not an entry. */
  class OrderList {
    const root: Element
    /** The elements of the list, and `root` followed by them from front to back. */
    ghost var elements: set<Element>
    ghost var ring: seq<Element>

    ghost predicate Valid()
      reads this, root`next, root`prev, elements`next, elements`prev
    {
      Ring(root, elements, ring) && Linked(ring)
    }

    constructor ()
      ensures Valid() && ring == [root] && elements == {} && fresh(root)
    {
      var r := new Element("", KeyValue([], 0, None, 0));
      root := r;
      ring, elements := [r], {};
      new;
      root.next, root.prev := root, root;
    }

    /** Takes an element out of the ring; its own links are cleared. */
    method Remove(e: Element, ghost k: nat)
      requires Valid() && 0 < k < |ring| && ring[k] == e
      modifies this, root`next, root`prev, elements`next, elements`prev
      ensures Valid() && ring == Cut(old(ring), k) && elements == old(elements) - {e}
    {
      Differ(ring, k);
      Differ(ring, k - 1);
      Differ(ring, Next(k, |ring|));
      CutRing(root, elements, ring, k);
      e.prev.next := e.next;
      e.next.prev := e.prev;
      e.next, e.prev := null, null;
      CutLinked(ring, k);
      ring, elements := Cut(ring, k), elements - {e};
    }

    /** Links an element in right behind the root. */
    method PushFront(e: Element)
      requires Valid() && e != root && e !in elements
      modifies this, e`next, e`prev, root`next, root`prev, elements`next, elements`prev
      ensures Valid() && ring == Cons(old(ring), e) && elements == old(elements) + {e}
    {
      Differ(ring, 0);
      Differ(ring, Next(0, |ring|));
      ConsRing(root, elements, ring, e);
      e.prev, e.next := root, root.next;
      root.next.prev := e;
      root.next := e;
      ConsLinked(ring, e);
      ring, elements := Cons(ring, e), elements + {e};
    }

    method MoveToFront(e: Element, ghost k: nat)
      requires Valid() && 0 < k < |ring| && ring[k] == e
      modifies this, root`next, root`prev, elements`next, elements`prev
      ensures Valid() && ring == Cons(Cut(old(ring), k), e) && elements == old(elements)
    {
      Differ(ring, k);
      if root.next == e {
        assert ring == Cons(Cut(ring, k), e);
        return;
      }
      Remove(e, k);
      PushFront(e);
      assert elements == old(elements);
    }

    method Back() returns (e: Element?)
      requires Valid()
      ensures e == if |ring| == 1 then null else ring[|ring| - 1]
    {
      Differ(ring, 0);
      e := if root.prev == root then null else root.prev;
    }

    method Init()
      requires Valid()
      modifies this, root`next, root`prev
      ensures Valid() && ring == [root] && elements == {}
    {
      root.next, root.prev := root, root;
      ring, elements := [root], {};
    }
  }

  // ---------------------------------------------------------------------------------------------
  // The cache

  /** `o` is what the elements behind the root of `ring` hold, front to back. */
  ghost predicate Lists(o: Order, ring: seq<Element>)
    reads ring`value
  {
    && |o| == |ring| - 1
    && forall i :: 0 <= i < |o| ==> o[i] == Entry(ring[i + 1].key, ring[i + 1].value)
  }

  lemma CutLists(o: Order, ring: seq<Element>, k: nat)
    requires Lists(o, ring) && 0 < k < |ring|
    ensures Lists(o[..k - 1] + o[k..], Cut(ring, k))
  {
  }

  lemma ConsLists(o: Order, ring: seq<Element>, e: Element)
    requires Lists(o, ring)
    ensures Lists([Entry(e.key, e.value)] + o, Cons(ring, e))
  {
  }

  class L1Cache {
    var cache: map<Key, Element>
    const cacheOrder: OrderList
    /** The cached entries, front to back: the value of this object. */
    ghost var contents: Order

    /** The map indexes the elements of the list by key. */
    ghost predicate Indexed()
      reads this, cacheOrder
    {
      && |cache| == |contents|
      && (forall e :: e in cacheOrder.elements ==> e.key in cache && cache[e.key] == e)
      && (forall k :: k in cache ==> cache[k] in cacheOrder.elements && cache[k].key == k)
    }

    ghost predicate Valid()
      reads this, cacheOrder, cacheOrder.root, cacheOrder.elements
    {
      cacheOrder.Valid() && Lists(contents, cacheOrder.ring) && Indexed()
    }

    constructor ()
      ensures Valid() && contents == []
      ensures fresh(cacheOrder) && fresh(cacheOrder.root) && cacheOrder.elements == {}
    {
      cache, contents := map[], [];
      cacheOrder := new OrderList();
    }

    /** The map and the list are in bijection, so no key is listed twice. */
    lemma KeysUnique()
      requires Valid()
      ensures UniqueKeys(contents)
    {
      forall i, j | 0 <= i < j < |contents| ensures contents[i].key != contents[j].key {
        assert Apart(cacheOrder.ring, i + 1, j + 1);
      }
    }

    /** Where the element of a cached key stands in the ring. */
    lemma Locate(key: Key) returns (k: nat)
      requires Valid() && key in cache
      ensures 0 < k < |cacheOrder.ring| && cacheOrder.ring[k] == cache[key]
      ensures contents[k - 1] == Entry(key, cache[key].value)
      ensures Find(contents, key) == Some(cache[key].value)
      ensures Without(contents, key) == contents[..k - 1] + contents[k..]
    {
      assert Stands(cache[key], cacheOrder.ring);
      k :| 0 < k < |cacheOrder.ring| && cacheOrder.ring[k] == cache[key];
      KeysUnique();
      FindAt(contents, k - 1);
    }

    lemma Absent(key: Key)
      requires Valid() && key !in cache
      ensures Find(contents, key).None?
    {
      FindAbsent(contents, key);
      forall i | 0 <= i < |contents| ensures contents[i].key != key {
        assert cacheOrder.ring[i + 1] in cacheOrder.elements;
      }
    }

    method GetL1(key: Key, now: Time) returns (value: KeyValue, found: bool)
      requires Valid()
      modifies this, cacheOrder, cacheOrder.root, cacheOrder.elements
      ensures Valid()
      ensures contents == Get(old(contents), key, now).0
      ensures found == Get(old(contents), key, now).1.Some?
      ensures found ==> value == Get(old(contents), key, now).1.value
      ensures cacheOrder.elements <= old(cacheOrder.elements)
    {
      value := KeyValue([], 0, None, 0);
      if key !in cache {
        Absent(key);
        return value, false;
      }
      ghost var k := Locate(key);
      var element := cache[key];
      if Expired(element.value, now) {
        Drop(element, k);
        return value, false;
      }
      Touch(element, k);
      return element.value, true;
    }

    /** Takes one entry out of the map and out of the list. */
    method Drop(element: Element, ghost k: nat)
      requires Valid() && 0 < k < |cacheOrder.ring| && cacheOrder.ring[k] == element
      modifies this, cacheOrder, cacheOrder.root`next, cacheOrder.root`prev
      modifies cacheOrder.elements`next, cacheOrder.elements`prev
      ensures Valid()
      ensures contents == old(contents)[..k - 1] + old(contents)[k..]
      ensures cache == old(cache) - {element.key} && cacheOrder.elements == old(cacheOrder.elements) - {element}
    {
      CutLists(contents, cacheOrder.ring, k);
      cache := cache - {element.key};
      cacheOrder.Remove(element, k);
      contents := contents[..k - 1] + contents[k..];
    }

    method Touch(element: Element, ghost k: nat)
      requires Valid() && 0 < k < |cacheOrder.ring| && cacheOrder.ring[k] == element
      modifies this`contents, cacheOrder, cacheOrder.root`next, cacheOrder.root`prev
      modifies cacheOrder.elements`next, cacheOrder.elements`prev
      ensures Valid()
      ensures contents == [old(contents)[k - 1]] + (old(contents)[..k - 1] + old(contents)[k..])
      ensures cacheOrder.elements == old(cacheOrder.elements)
    {
      CutLists(contents, cacheOrder.ring, k);
      ConsLists(contents[..k - 1] + contents[k..], Cut(cacheOrder.ring, k), element);
      cacheOrder.MoveToFront(element, k);
      contents := [contents[k - 1]] + (contents[..k - 1] + contents[k..]);
    }

    method SetL1(key: Key, value: KeyValue, maxEntries: int)
      requires Valid()
      modifies this, cacheOrder, cacheOrder.root, cacheOrder.elements
      ensures Valid()
      ensures contents == Set(old(contents), key, value, maxEntries)
      ensures fresh(cacheOrder.elements - old(cacheOrder.elements))
    {
      if maxEntries <= 0 {
        return;
      }
      if key in cache {
        Replace(key, value);
        return;
      }
      Absent(key);
      if |cache| >= maxEntries {
        RemoveL1LRU();
      }
      Insert(key, value);
    }

    /** A key that is already listed keeps its element and takes the new value. */
    method Replace(key: Key, value: KeyValue)
      requires Valid() && key in cache
      modifies this, cacheOrder, cacheOrder.root, cacheOrder.elements
      ensures Valid() && contents == [Entry(key, value)] + Without(old(contents), key)
      ensures Find(old(contents), key).Some? && cacheOrder.elements == old(cacheOrder.elements)
    {
      ghost var k := Locate(key);
      Store(cache[key], value, k);
      Touch(cache[key], k);
    }

    method Store(element: Element, value: KeyValue, ghost k: nat)
      requires Valid() && 0 < k < |cacheOrder.ring| && cacheOrder.ring[k] == element
      modifies this`contents, element`value
      ensures Valid() && contents == old(contents)[k - 1 := Entry(element.key, value)]
    {
      Differ(cacheOrder.ring, k);
      element.value := value;
      contents := contents[k - 1 := Entry(element.key, value)];
    }

    method Insert(key: Key, value: KeyValue)
      requires Valid() && key !in cache
      modifies this, cacheOrder, cacheOrder.root`next, cacheOrder.root`prev
      modifies cacheOrder.elements`next, cacheOrder.elements`prev
      ensures Valid() && contents == [Entry(key, value)] + old(contents)
      ensures fresh(cacheOrder.elements - old(cacheOrder.elements))
    {
      var element := new Element(key, value);
      Link(element);
    }

    /** A new element goes to the front of the list and into the map. */
    method Link(element: Element)
      requires Valid() && element != cacheOrder.root && element !in cacheOrder.elements
      requires element.key !in cache
      modifies this, cacheOrder, element`next, element`prev, cacheOrder.root`next, cacheOrder.root`prev
      modifies cacheOrder.elements`next, cacheOrder.elements`prev
      ensures Valid() && contents == [Entry(element.key, element.value)] + old(contents)
      ensures cacheOrder.elements == old(cacheOrder.elements) + {element}
    {
      ConsLists(contents, cacheOrder.ring, element);
      cacheOrder.PushFront(element);
      cache := cache[element.key := element];
      contents := [Entry(element.key, element.value)] + contents;
    }

    method RemoveL1LRU()
      requires Valid()
      modifies this, cacheOrder, cacheOrder.root`next, cacheOrder.root`prev
      modifies cacheOrder.elements`next, cacheOrder.elements`prev
      ensures Valid()
      ensures contents == if old(contents) == [] then [] else old(contents)[..|old(contents)| - 1]
      ensures cache.Keys <= old(cache).Keys && cacheOrder.elements <= old(cacheOrder.elements)
    {
      var element := cacheOrder.Back();
      if element == null {
        return;
      }
      Drop(element, |cacheOrder.ring| - 1);
    }

    method ClearL1()
      requires Valid()
      modifies this, cacheOrder, cacheOrder.root`next, cacheOrder.root`prev
      ensures Valid() && contents == [] && cacheOrder.elements == {}
    {
      cache := map[];
      cacheOrder.Init();
      contents := [];
    }

    method Perform(op: Op) returns (answer: Option<KeyValue>)
      requires Valid()
      modifies this, cacheOrder, cacheOrder.root, cacheOrder.elements
      ensures Valid() && contents == Apply(old(contents), op)
      ensures answer == Answer(old(contents), op)
      ensures fresh(cacheOrder.elements - old(cacheOrder.elements))
    {
      answer := None;
      match op {
        case GetOp(key, now) =>
          var value, found := GetL1(key, now);
          if found {
            answer := Some(value);
          }
        case SetOp(key, value, maxEntries) => SetL1(key, value, maxEntries);
        case ClearOp => ClearL1();
      }
    }
  }

  /**
   Any sequence of operations on a new cache object leaves the list that L1Order computes, and every
   lookup on the way answers as it says there.
   */
  method Play(ops: seq<Op>) returns (l1: L1Cache, answers: seq<Option<KeyValue>>)
    ensures fresh(l1) && l1.Valid() && l1.contents == Run(ops)
    ensures answers == Answers(ops)
  {
    l1 := new L1Cache();
    answers := [];
    for i := 0 to |ops|
      invariant fresh(l1) && fresh(l1.cacheOrder) && fresh(l1.cacheOrder.root) && fresh(l1.cacheOrder.elements)
      invariant l1.Valid() && l1.contents == Run(ops[..i]) && answers == Answers(ops[..i])
    {
      PrefixRun(ops, i);
      var answer := l1.Perform(ops[i]);
      answers := answers + [answer];
    }
    assert ops[..|ops|] == ops;
  }
}
