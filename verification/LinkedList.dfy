/** The singly-linked list of list.cc. */
module LinkedList {
  import opened Options

  datatype Entry<+T> = Entry(item: T, key: int)

  /** The place SortedInsert chooses: before the first entry with a larger key. */
  function InsertPoint<T>(s: seq<Entry<T>>, key: int): (p: nat)
    ensures p <= |s|
    ensures forall i :: 0 <= i < p ==> s[i].key <= key
    ensures p < |s| ==> key < s[p].key
  {
    if s == [] || key < s[0].key then 0 else 1 + InsertPoint(s[1..], key)
  }

  function Inserted<T>(s: seq<Entry<T>>, e: Entry<T>): seq<Entry<T>> {
    var p := InsertPoint(s, e.key);
    s[..p] + [e] + s[p..]
  }

  ghost predicate Sorted<T>(s: seq<Entry<T>>) {
    forall i, j :: 0 <= i < j < |s| ==> s[i].key <= s[j].key
  }

  /** Inserting into a sorted list keeps it sorted and adds exactly the new entry; the entry goes
      behind every entry with the same key. */
  lemma InsertedIsSorted<T>(s: seq<Entry<T>>, e: Entry<T>)
    requires Sorted(s)
    ensures Sorted(Inserted(s, e))
    ensures multiset(Inserted(s, e)) == multiset(s) + multiset{e}
    ensures forall i :: 0 <= i < |s| && s[i].key == e.key ==> i < InsertPoint(s, e.key)
  {
    var p := InsertPoint(s, e.key);
    SplicedIsSorted(s, e, p);
    SplicedMultiset(s, e, p);
    EqualsComeFirst(s, e.key, p);
  }

  lemma EqualsComeFirst<T>(s: seq<Entry<T>>, key: int, p: nat)
    requires Sorted(s) && p <= |s| && (p < |s| ==> key < s[p].key)
    ensures forall i :: 0 <= i < |s| && s[i].key == key ==> i < p
  {
    assert forall i :: p < i < |s| ==> s[p].key <= s[i].key;
  }

  lemma SplicedMultiset<T>(s: seq<Entry<T>>, e: Entry<T>, p: nat)
    requires p <= |s|
    ensures multiset(s[..p] + [e] + s[p..]) == multiset(s) + multiset{e}
  {
    assert s == s[..p] + s[p..];
  }

  lemma SplicedIsSorted<T>(s: seq<Entry<T>>, e: Entry<T>, p: nat)
    requires Sorted(s) && p <= |s|
    requires (forall i :: 0 <= i < p ==> s[i].key <= e.key) && (p < |s| ==> e.key < s[p].key)
    ensures Sorted(s[..p] + [e] + s[p..])
  {
    var r := s[..p] + [e] + s[p..];
    assert forall i :: 0 <= i < p ==> r[i] == s[i];
    assert forall i :: p < i < |r| ==> r[i] == s[i - 1];
    forall i, j | 0 <= i < j < |r|
      ensures r[i].key <= r[j].key
    {
      if i < p && j > p {
        assert s[i].key <= s[j - 1].key;
      } else if i == p && p < j - 1 {
        assert s[p].key <= s[j - 1].key;
      } else if i > p {
        assert s[i - 1].key <= s[j - 1].key;
      }
    }
  }

  class Node<T> {
    const item: T
    const key: int
    var next: Node?<T>

    constructor (item: T, key: int)
      ensures this.item == item && this.key == key && next == null
    {
      this.item, this.key, next := item, key, null;
    }
  }

  ghost predicate Distinct<T>(s: seq<Node<T>>) {
    forall i, j :: 0 <= i < j < |s| ==> s[i] != s[j]
  }

  lemma SplicedIsDistinct<T>(s: seq<Node<T>>, i: nat, e: Node<T>)
    requires Distinct(s) && i <= |s| && e !in s
    ensures Distinct(s[..i] + [e] + s[i..])
  {
    var r := s[..i] + [e] + s[i..];
    assert forall j :: 0 <= j < |r| ==> r[j] == if j < i then s[j] else if j == i then e else s[j - 1];
  }

  class List<T> {
    var first: Node?<T>
    var last: Node?<T>
    ghost var spine: seq<Node<T>>       // the nodes from first to last
    ghost var contents: seq<Entry<T>>   // what the list holds
    ghost var repr: set<object>         // the list and its nodes

    ghost predicate Valid()
      reads this, repr
    {
      && this in repr && (forall i :: 0 <= i < |spine| ==> spine[i] in repr)
      && |contents| == |spine|
      && (spine == [] ==> first == null && last == null)
      && (spine != [] ==> first == spine[0] && last == spine[|spine| - 1] && last.next == null)
      && (forall i {:trigger spine[i].next} :: 0 <= i < |spine| - 1 ==> spine[i].next == spine[i + 1])
      && Distinct(spine)
      && (forall i :: 0 <= i < |spine| ==> contents[i] == Entry(spine[i].item, spine[i].key))
    }

    constructor ()
      ensures Valid() && contents == [] && fresh(repr)
    {
      first, last, spine, contents, repr := null, null, [], [], {this};
    }

    method IsEmpty() returns (b: bool)
      requires Valid()
      ensures b <==> contents == []
    {
      b := first == null;
    }

    method Append(item: T)
      requires Valid()
      modifies repr
      ensures Valid() && contents == old(contents) + [Entry(item, 0)]
      ensures fresh(repr - old(repr))
    {
      var element := new Node(item, 0);
      if first == null {
        first := element;
        last := element;
        spine, contents, repr := [element], [Entry(item, 0)], repr + {element};
      } else {
        LinkLast(element);
      }
    }

    method Prepend(item: T)
      requires Valid()
      modifies repr
      ensures Valid() && contents == [Entry(item, 0)] + old(contents)
      ensures fresh(repr - old(repr))
    {
      var element := new Node(item, 0);
      LinkFirst(element);
    }

    /** The walk of SortedInsert: the last node before the first one with a larger key. */
    method Walk(key: int) returns (ptr: Node<T>, ghost i: nat)
      requires Valid() && first != null && !(key < first.key)
      ensures i < |spine| && ptr == spine[i] && InsertPoint(contents, key) == i + 1
    {
      ptr, i := first, 0;
      while ptr.next != null && !(key < ptr.next.key)
        invariant 0 <= i < |spine| && ptr == spine[i] && i < InsertPoint(contents, key)
        decreases |spine| - i
      {
        assert contents[i + 1].key == ptr.next.key;
        ptr, i := ptr.next, i + 1;
      }
      assert i + 1 < |spine| ==> contents[i + 1].key == ptr.next.key;
    }

    /** Link a new node between two nodes of the list. */
    method LinkBetween(ptr: Node<T>, element: Node<T>, ghost i: nat)
      requires Valid() && i + 1 < |spine| && ptr == spine[i] && element !in repr && element.next == null
      modifies this, ptr`next, element`next
      ensures Valid() && repr == old(repr) + {element}
      ensures contents == old(contents[..i + 1] + [Entry(element.item, element.key)] + contents[i + 1..])
    {
      element.next := ptr.next;
      ptr.next := element;
      ghost var sp, co := spine, contents;
      SplicedIsDistinct(sp, i + 1, element);
      repr := repr + {element};
      spine := sp[..i + 1] + [element] + sp[i + 1..];
      contents := co[..i + 1] + [Entry(element.item, element.key)] + co[i + 1..];
      forall j | 0 <= j < |spine|
        ensures spine[j] == (if j <= i then sp[j] else if j == i + 1 then element else sp[j - 1])
        ensures contents[j] == Entry(spine[j].item, spine[j].key)
        ensures j < |spine| - 1 ==> spine[j].next == spine[j + 1]
      {
        assert j < i ==> sp[j].next == sp[j + 1];
        assert i + 1 < j < |spine| - 1 ==> sp[j - 1].next == sp[j];
      }
    }

    /** Link a new node at the end of a list that is not empty. */
    method LinkLast(element: Node<T>)
      requires Valid() && first != null && element !in repr && element.next == null
      modifies this, last`next
      ensures Valid() && repr == old(repr) + {element}
      ensures contents == old(contents) + [Entry(element.item, element.key)]
    {
      last.next := element;
      last := element;
      spine, contents, repr := spine + [element], contents + [Entry(element.item, element.key)], repr + {element};
    }

    /** Link a new node at the front. */
    method LinkFirst(element: Node<T>)
      requires Valid() && element !in repr && element.next == null
      modifies this, element`next
      ensures Valid() && repr == old(repr) + {element}
      ensures contents == [Entry(element.item, element.key)] + old(contents)
    {
      if first == null {
        first := element;
        last := element;
      } else {
        element.next := first;
        first := element;
      }
      spine, contents, repr := [element] + spine, [Entry(element.item, element.key)] + contents, repr + {element};
    }

    method SortedInsert(item: T, key: int)
      requires Valid()
      modifies repr
      ensures Valid() && contents == Inserted(old(contents), Entry(item, key))
      ensures fresh(repr - old(repr))
    {
      var element := new Node(item, key);
      if first == null || key < first.key {
        LinkFirst(element);
      } else {
        var ptr, i := Walk(key);
        assert contents == contents[..|contents|] + [];
        if ptr.next != null {
          LinkBetween(ptr, element, i);
        } else {
          LinkLast(element);
        }
      }
    }

    /** Also List::Remove, which ignores the key. */
    method SortedRemove() returns (r: Option<Entry<T>>)
      requires Valid()
      modifies this
      ensures Valid() && repr == old(repr)
      ensures if old(contents) == [] then r == None && contents == []
              else r == Some(old(contents)[0]) && contents == old(contents)[1..]
    {
      var element := first;
      if element == null { return None; }
      r := Some(Entry(element.item, element.key));
      if first == last {
        first := null;
        last := null;
      } else {
        first := element.next;
      }
      spine, contents := spine[1..], contents[1..];
    }
  }
}
