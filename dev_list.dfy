/**
 * The device list every backend hands out (`struct ser_dev_list` of
 * include/public/sercomm/dev.h): singly linked nodes, each holding one
 * device, walked with `ser_dev_list_foreach` and freed node by node by
 * `ser_dev_list_destroy`. Nodes never change once linked, so their fields
 * are constants; `tail` is the ghost list of nodes after a node.
 */
module DevList {
  import opened SerTypes

  class Node {
    const dev: Device
    const next: Node?
    ghost const tail: seq<Node>

    /** The nodes reachable through `next` are `tail`, ending in NULL. */
    ghost predicate Valid()
      decreases |tail|
    {
      && (next == null ==> tail == [])
      && (next != null ==> tail == [next] + next.tail && next.Valid())
    }

    /** This node and every node after it, in `next` order. */
    ghost function Nodes(): seq<Node>
    {
      [this] + tail
    }

    /** The devices of the list starting here, in `next` order. */
    ghost function Devices(): (ds: seq<Device>)
      requires Valid()
      ensures |ds| == |Nodes()| && ds[0] == dev
      decreases |tail|
    {
      [dev] + (if next == null then [] else next.Devices())
    }

    /** `calloc` of a node, filled in and linked in front of `next`. */
    constructor (dev: Device, next: Node?)
      requires next != null ==> next.Valid()
      ensures Valid()
      ensures this.dev == dev && this.next == next
      ensures Devices() == [dev] + (if next == null then [] else next.Devices())
      ensures tail == (if next == null then [] else next.Nodes())
    {
      this.dev := dev;
      this.next := next;
      this.tail := if next == null then [] else [next] + next.tail;
    }
  }

  /** The devices of a possibly empty list. */
  ghost function ListDevices(lst: Node?): seq<Device>
    requires lst != null ==> lst.Valid()
  {
    if lst == null then [] else lst.Devices()
  }

  /** The nodes of a possibly empty list. */
  ghost function ListNodes(lst: Node?): seq<Node>
  {
    if lst == null then [] else lst.Nodes()
  }

  /** One step along `next` drops the first node and keeps the rest valid. */
  lemma NodesStep(n: Node)
    requires n.Valid()
    ensures n.next != null ==> n.next.Valid()
    ensures ListNodes(n) == [n] + ListNodes(n.next)
  {
  }

  /** Following `next` from the k-th node reaches the (k+1)-th. */
  lemma {:induction false} NodesChain(n: Node, k: nat)
    requires n.Valid() && k < |n.Nodes()|
    ensures n.Nodes()[k].Valid()
    ensures n.Nodes()[k].Nodes() == n.Nodes()[k..]
    ensures n.Nodes()[k].Devices() == n.Devices()[k..]
    decreases k
  {
    if k > 0 {
      NodesChain(n.next, k - 1);
      assert n.Nodes()[k] == n.next.Nodes()[k - 1];
      assert n.Devices()[k..] == n.next.Devices()[k - 1..];
      assert n.Nodes()[k..] == n.next.Nodes()[k - 1..];
    }
  }

  /** A valid list has no cycle: its nodes are pairwise distinct. */
  lemma NodesDistinct(n: Node)
    requires n.Valid()
    ensures forall i, j :: 0 <= i < j < |n.Nodes()| ==> n.Nodes()[i] != n.Nodes()[j]
  {
    forall i, j | 0 <= i < j < |n.Nodes()|
      ensures n.Nodes()[i] != n.Nodes()[j]
    {
      NodesChain(n, i);
      NodesChain(n, j);
    }
  }

  /** The `next` of the k-th node is the (k+1)-th node, or NULL after the last. */
  lemma NextOfNode(n: Node, k: nat)
    requires n.Valid() && k < |n.Nodes()|
    ensures n.Nodes()[k].next == if k + 1 < |n.Nodes()| then n.Nodes()[k + 1] else null
    ensures n.Nodes()[k].dev == n.Devices()[k]
  {
    NodesChain(n, k);
    var m := n.Nodes()[k];
    assert m.Nodes() == n.Nodes()[k..];
    if m.next != null {
      assert m.Nodes()[1] == m.next;
    }
  }

  /**
   * `ser_dev_list_destroy`: walk the list, freeing each node after reading
   * its `next`. `freed` lists the nodes in the order they are freed.
   */
  method Destroy(lst: Node?) returns (freed: seq<Node>)
    requires lst != null ==> lst.Valid()
    ensures freed == ListNodes(lst)
  {
    freed := [];
    if lst == null {
      return;
    }
    ghost var nodes := lst.Nodes();
    var curr: Node? := lst;
    while curr != null
      invariant |freed| <= |nodes| && freed == nodes[..|freed|]
      invariant curr == if |freed| < |nodes| then nodes[|freed|] else null
      decreases |nodes| - |freed|
    {
      NextOfNode(lst, |freed|);
      freed := freed + [curr];
      curr := curr.next;
    }
  }

  /** Destroy frees every node of the list exactly once. */
  lemma DestroyFreesEachOnce(lst: Node, freed: seq<Node>)
    requires lst.Valid() && freed == ListNodes(lst)
    ensures |freed| == |lst.Devices()|
    ensures forall i, j :: 0 <= i < j < |freed| ==> freed[i] != freed[j]
  {
    NodesDistinct(lst);
  }

  /** `ser_dev_list_foreach`: the devices met walking the list. */
  method Items(lst: Node?) returns (ds: seq<Device>)
    requires lst != null ==> lst.Valid()
    ensures ds == ListDevices(lst)
  {
    ds := [];
    if lst == null {
      return;
    }
    ghost var nodes := lst.Nodes();
    var item: Node? := lst;
    while item != null
      invariant |ds| <= |nodes| && ds == lst.Devices()[..|ds|]
      invariant item == if |ds| < |nodes| then nodes[|ds|] else null
      decreases |nodes| - |ds|
    {
      NextOfNode(lst, |ds|);
      ds := ds + [item.dev];
      item := item.next;
    }
  }

  // ---------------------------------------------------------------------------
  // Order of a list built by prepending
  // ---------------------------------------------------------------------------

  /** A sequence back to front. */
  function Reverse<T>(s: seq<T>): (r: seq<T>)
    ensures |r| == |s|
  {
    if |s| == 0 then [] else [s[|s| - 1]] + Reverse(s[..|s| - 1])
  }

  /** Prepending the next element to a reversed prefix reverses the longer prefix. */
  lemma ReverseSnoc<T>(s: seq<T>, x: T)
    ensures Reverse(s + [x]) == [x] + Reverse(s)
  {
    assert (s + [x])[..|s|] == s;
  }

  /** The i-th element of the reversal is the i-th from the end. */
  lemma {:induction false} ReverseIndex<T>(s: seq<T>, i: nat)
    requires i < |s|
    ensures Reverse(s)[i] == s[|s| - 1 - i]
    decreases |s|
  {
    if i > 0 {
      ReverseIndex(s[..|s| - 1], i - 1);
    }
  }

  /** Reversing twice gives the original order back. */
  lemma {:induction false} ReverseInvolutive<T>(s: seq<T>)
    ensures Reverse(Reverse(s)) == s
    decreases |s|
  {
    if |s| > 0 {
      var init := s[..|s| - 1];
      ReverseInvolutive(init);
      calc {
        Reverse(Reverse(s));
        Reverse([s[|s| - 1]] + Reverse(init));
        { ReverseCons(s[|s| - 1], Reverse(init)); }
        Reverse(Reverse(init)) + [s[|s| - 1]];
        init + [s[|s| - 1]];
        s;
      }
    }
  }

  /** Reversal moves the head to the end. */
  lemma {:induction false} ReverseCons<T>(x: T, s: seq<T>)
    ensures Reverse([x] + s) == Reverse(s) + [x]
    decreases |s|
  {
    if |s| > 0 {
      var init := s[..|s| - 1];
      assert ([x] + s)[..|s|] == [x] + init;
      ReverseCons(x, init);
    } else {
      assert [x] + s == [x];
    }
  }

  /**
   * The devices an enumeration contributes, in enumeration order: one for
   * every entry the backend keeps, described by `dev`.
   */
  function Listed<E>(es: seq<E>, keep: E -> bool, dev: E -> Device): (ds: seq<Device>)
    ensures |ds| <= |es|
  {
    if |es| == 0 then []
    else Listed(es[..|es| - 1], keep, dev) + (if keep(es[|es| - 1]) then [dev(es[|es| - 1])] else [])
  }

  /** One more entry adds its device at the end when it is kept. */
  lemma ListedSnoc<E>(es: seq<E>, e: E, keep: E -> bool, dev: E -> Device)
    ensures Listed(es + [e], keep, dev) == Listed(es, keep, dev) + (if keep(e) then [dev(e)] else [])
  {
    assert (es + [e])[..|es|] == es;
  }

  /** The devices of two runs of entries, one after the other. */
  lemma {:induction false} ListedAppend<E>(a: seq<E>, b: seq<E>, keep: E -> bool, dev: E -> Device)
    ensures Listed(a + b, keep, dev) == Listed(a, keep, dev) + Listed(b, keep, dev)
    decreases |b|
  {
    if |b| == 0 {
      assert a + b == a;
    } else {
      var init := b[..|b| - 1];
      var e := b[|b| - 1];
      assert a + b == (a + init) + [e];
      assert b == init + [e];
      ListedSnoc(a + init, e, keep, dev);
      ListedSnoc(init, e, keep, dev);
      ListedAppend(a, init, keep, dev);
    }
  }

  /** A device is listed exactly when some kept entry describes it. */
  lemma {:induction false} ListedMembers<E>(es: seq<E>, keep: E -> bool, dev: E -> Device, d: Device)
    ensures d in Listed(es, keep, dev) <==> exists i :: 0 <= i < |es| && keep(es[i]) && dev(es[i]) == d
    decreases |es|
  {
    if |es| > 0 {
      var init := es[..|es| - 1];
      ListedMembers(init, keep, dev, d);
      if exists i :: 0 <= i < |init| && keep(init[i]) && dev(init[i]) == d {
        var i :| 0 <= i < |init| && keep(init[i]) && dev(init[i]) == d;
        assert es[i] == init[i];
      }
      if exists i :: 0 <= i < |es| && keep(es[i]) && dev(es[i]) == d {
        var i :| 0 <= i < |es| && keep(es[i]) && dev(es[i]) == d;
        if i < |init| {
          assert init[i] == es[i];
        }
      }
    }
  }

  /** A prefix of the enumeration lists no more devices than the whole. */
  lemma ListedPrefix<E>(es: seq<E>, i: nat, keep: E -> bool, dev: E -> Device)
    requires i <= |es|
    ensures |Listed(es[..i], keep, dev)| <= |Listed(es, keep, dev)|
    ensures Listed(es[..i], keep, dev) == Listed(es, keep, dev)[..|Listed(es[..i], keep, dev)|]
  {
    assert es == es[..i] + es[i..];
    ListedAppend(es[..i], es[i..], keep, dev);
  }

  /**
   * The list a build loop holds after `made` prepends: a valid list of the
   * listed devices, last enumerated first.
   */
  ghost predicate HoldsReversed(lst: Node?, listed: seq<Device>)
  {
    && (lst != null ==> lst.Valid())
    && (lst == null <==> listed == [])
    && ListDevices(lst) == Reverse(listed)
  }

  /** Prepending a node for the next kept entry keeps the list reversed. */
  lemma PrependReversed(lst: Node?, listed: seq<Device>, n: Node, d: Device)
    requires HoldsReversed(lst, listed)
    requires n.Valid() && n.next == lst && n.Devices() == [d] + ListDevices(lst)
    ensures HoldsReversed(n, listed + [d])
  {
    ReverseSnoc(listed, d);
  }

  /**
   * The step every build loop repeats: `calloc` a node for `d` and link it
   * in front of the list, which then lists `d` after the devices before it.
   */
  method Prepend(lst: Node?, ghost listed: seq<Device>, d: Device) returns (node: Node)
    requires HoldsReversed(lst, listed)
    ensures HoldsReversed(node, listed + [d])
    ensures node.dev == d && node.next == lst
  {
    node := new Node(d, lst);
    PrependReversed(lst, listed, node, d);
  }

  /**
   * The error path of every build loop: the partial list is destroyed,
   * freeing one node per device listed so far.
   */
  method Abandon(lst: Node?, ghost listed: seq<Device>) returns (freed: seq<Node>)
    requires HoldsReversed(lst, listed)
    ensures freed == ListNodes(lst) && |freed| == |listed|
  {
    HeldCount(lst, listed);
    freed := Destroy(lst);
  }

  /**
   * What a build loop has after visiting the first `i` entries: the list of
   * the devices kept so far, last first, and the number of nodes made.
   */
  ghost predicate Building<E>(es: seq<E>, i: nat, keep: E -> bool, dev: E -> Device, lst: Node?, made: nat)
    requires i <= |es|
  {
    && HoldsReversed(lst, Listed(es[..i], keep, dev))
    && made == |Listed(es[..i], keep, dev)|
  }

  /** Visiting entry `i`: a kept entry is prepended and counted, any other leaves the list alone. */
  lemma BuildingStep<E>(es: seq<E>, i: nat, keep: E -> bool, dev: E -> Device, lst: Node?, made: nat, lst': Node?)
    requires i < |es| && Building(es, i, keep, dev, lst, made)
    requires keep(es[i]) ==> HoldsReversed(lst', Listed(es[..i], keep, dev) + [dev(es[i])])
    requires !keep(es[i]) ==> lst' == lst
    ensures Building(es, i + 1, keep, dev, lst', made + (if keep(es[i]) then 1 else 0))
  {
    assert es[..i + 1] == es[..i] + [es[i]];
    ListedSnoc(es[..i], es[i], keep, dev);
    if !keep(es[i]) {
      assert Listed(es[..i], keep, dev) + [] == Listed(es[..i], keep, dev);
    }
  }

  /** A node that cannot be made for a kept entry is one the whole enumeration would list. */
  lemma BuildingShort<E>(es: seq<E>, i: nat, keep: E -> bool, dev: E -> Device)
    requires i < |es| && keep(es[i])
    ensures |Listed(es[..i], keep, dev)| < |Listed(es, keep, dev)|
  {
    assert es[..i + 1] == es[..i] + [es[i]];
    ListedSnoc(es[..i], es[i], keep, dev);
    ListedPrefix(es, i + 1, keep, dev);
  }

  /**
   * The body of every build loop for entry `i`: a kept entry's device `d`
   * is prepended and counted, any other entry leaves the list alone.
   */
  method Visit<E>(es: seq<E>, i: nat, keep: E -> bool, dev: E -> Device, lst: Node?, made: nat, d: Device)
    returns (next: Node?, made': nat)
    requires i < |es| && Building(es, i, keep, dev, lst, made)
    requires keep(es[i]) ==> d == dev(es[i])
    ensures Building(es, i + 1, keep, dev, next, made')
    ensures made' == made + (if keep(es[i]) then 1 else 0)
    ensures keep(es[i]) ==> next != null && next.dev == d && next.next == lst
    ensures !keep(es[i]) ==> next == lst
  {
    next := lst;
    if keep(es[i]) {
      next := Prepend(lst, Listed(es[..i], keep, dev), d);
    }
    BuildingStep(es, i, keep, dev, lst, made, next);
    made' := made + (if keep(es[i]) then 1 else 0);
  }

  /** After the last entry the loop holds every listed device. */
  lemma BuildingDone<E>(es: seq<E>, keep: E -> bool, dev: E -> Device, lst: Node?, made: nat)
    requires Building(es, |es|, keep, dev, lst, made)
    ensures HoldsReversed(lst, Listed(es, keep, dev)) && made == |Listed(es, keep, dev)|
  {
    assert es[..|es|] == es;
  }

  /** The nodes of a list held by a build loop are as many as its devices. */
  lemma HeldCount(lst: Node?, listed: seq<Device>)
    requires HoldsReversed(lst, listed)
    ensures |ListNodes(lst)| == |listed|
  {
  }

  /** How a list build ends: a list, or NULL with the text recorded for it. */
  datatype Built = Built(lst: Node?, msg: Option<string>, freed: seq<Node>)

  const MSG_NO_DEVICES: string := "No devices found"
}
