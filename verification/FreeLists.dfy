/** The doubly linked free lists of the compact allocator: one chain per bucket, heads and bitmap kept in step. */
module FreeLists {
  import opened BucketBits
  import opened Chains
  import opened SizeClasses

  /** The two link words of a free area; 0 is NULL. */
  datatype Link = Link(next: nat, prev: nat)

  /** The bucket of a free area of the given size, header included. */
  function Bucket(size: nat): int
    requires 8 < size
  {
    Freeing(size - 8)
  }

  ghost predicate TwoWayLinkedAt(link: map<nat, Link>, chain: seq<nat>, i: nat)
    requires i < |chain|
  {
    chain[i] in link && link[chain[i]] == Link(After(chain, i), Before(chain, i))
  }

  /** The links of a chain lead from its head through all its areas and back. */
  ghost predicate ChainOk(head: nat, link: map<nat, Link>, chain: seq<nat>) {
    && head == Head(chain)
    && Distinct(chain)
    && (forall i {:trigger TwoWayLinkedAt(link, chain, i)} :: 0 <= i < |chain| ==> TwoWayLinkedAt(link, chain, i))
  }

  /** Every area of bucket b's chain is a free area of that bucket. */
  ghost predicate FiledIn(free: map<nat, nat>, chain: seq<nat>, b: nat) {
    forall x :: x in chain ==> x in free && 16 <= free[x] && Bucket(free[x]) == b
  }

  /** Heads, links, bitmap and chains describe the same set of free areas. */
  ghost predicate ListsOk(lists: seq<nat>, words: seq<bv32>, link: map<nat, Link>, chains: seq<seq<nat>>, free: map<nat,
                          nat>)
  {
    && |lists| == |chains| == NUMBER_OF_BUCKETS && |words| == 5
    && (forall b :: 0 <= b < NUMBER_OF_BUCKETS ==> ChainOk(lists[b], link, chains[b]))
    && (forall b :: 0 <= b < NUMBER_OF_BUCKETS ==> FiledIn(free, chains[b], b))
    && (forall x :: x in free ==> Filed(chains, free, x))
    && (forall i: nat :: Has(words, i) <==> i < NUMBER_OF_BUCKETS && chains[i] != [])
  }

  ghost predicate Filed(chains: seq<seq<nat>>, free: map<nat, nat>, x: nat)
    requires |chains| == NUMBER_OF_BUCKETS && x in free
  {
    16 <= free[x] && 0 <= Bucket(free[x]) < NUMBER_OF_BUCKETS && x in chains[Bucket(free[x])]
  }

  /** Links that agree on all areas of a chain keep it intact. */
  lemma TwoWayFrame(head: nat, link: map<nat, Link>, link': map<nat, Link>, chain: seq<nat>)
    requires ChainOk(head, link, chain)
    requires forall x :: x in chain && x in link ==> x in link' && link'[x] == link[x]
    ensures ChainOk(head, link', chain)
  {
    forall i | 0 <= i < |chain|
      ensures TwoWayLinkedAt(link', chain, i)
    {
      assert TwoWayLinkedAt(link, chain, i);
    }
  }

  /** The links after an area has been put in front of a chain. */
  function PushLinks(link: map<nat, Link>, head: nat, a: nat): map<nat, Link> {
    (if head != 0 && head in link then link[head := link[head].(prev := a)] else link)[a := Link(head, 0)]
  }

  lemma TwoWayPush(head: nat, link: map<nat, Link>, chain: seq<nat>, a: nat)
    requires ChainOk(head, link, chain) && a !in chain && a != 0
    ensures ChainOk(a, PushLinks(link, head, a), [a] + chain)
  {
    var link', chain' := PushLinks(link, head, a), [a] + chain;
    forall i | 0 <= i < |chain'|
      ensures TwoWayLinkedAt(link', chain', i)
    {
      if i > 0 {
        assert TwoWayLinkedAt(link, chain, i - 1);
        assert chain'[i] == chain[i - 1];
      }
    }
  }

  /** The links after an area has been taken out of its chain. */
  function UnlinkLinks(link: map<nat, Link>, a: nat): map<nat, Link>
    requires a in link
  {
    var next, prev := link[a].next, link[a].prev;
    var link1 := if prev != 0 && prev in link then link[prev := link[prev].(next := next)] else link;
    if next != 0 && next in link1 then link1[next := link1[next].(prev := prev)] else link1
  }

  lemma TwoWayUnlink(head: nat, link: map<nat, Link>, chain: seq<nat>, k: nat)
    requires ChainOk(head, link, chain) && k < |chain|
    ensures TwoWayLinkedAt(link, chain, k)
    ensures ChainOk(if head == chain[k] then link[chain[k]].next
              else head, UnlinkLinks(link, chain[k]), Without(chain, k))
    ensures (head == chain[k] && link[chain[k]].next == 0) <==> Without(chain, k) == []
  {
    assert TwoWayLinkedAt(link, chain, k);
    assert k > 0 ==> TwoWayLinkedAt(link, chain, k - 1);
    assert k + 1 < |chain| ==> TwoWayLinkedAt(link, chain, k + 1);
    var link', chain' := UnlinkLinks(link, chain[k]), Without(chain, k);
    forall i | 0 <= i < |chain'|
      ensures TwoWayLinkedAt(link', chain', i)
    {
      var j := if i < k then i else i + 1;
      assert TwoWayLinkedAt(link, chain, j);
    }
  }

  lemma HeadIsMember(lists: seq<nat>, words: seq<bv32>, link: map<nat, Link>, chains: seq<seq<nat>>, free: map<nat,
                     nat>, b: nat)
    requires ListsOk(lists, words, link, chains, free) && b < NUMBER_OF_BUCKETS
    ensures lists[b] != 0 ==> lists[b] in chains[b]
    ensures lists[b] == 0 <==> chains[b] == []
  {
    assert ChainOk(lists[b], link, chains[b]);
  }

  /** Filing a new free area: it becomes the head of its bucket. */
  lemma PushOk(lists: seq<nat>, words: seq<bv32>, link: map<nat, Link>, chains: seq<seq<nat>>, free: map<nat, nat>,
               a: nat, size: nat, b: nat)
    requires ListsOk(lists, words, link, chains, free) && a !in free && a != 0 && 16 <= size
    requires b < NUMBER_OF_BUCKETS && Bucket(size) == b
    ensures ListsOk(lists[b := a], SetFreeListBit(words, b), PushLinks(link, lists[b], a),
              chains[b := [a] + chains[b]], free[a := size])
  {
    hide Has, SetFreeListBit, Bucket, ChainOk, PushLinks;
    var lists', words', link' := lists[b := a], SetFreeListBit(words, b), PushLinks(link, lists[b], a);
    var chains', free' := chains[b := [a] + chains[b]], free[a := size];
    assert |words'| == 5 by { SetKeepsLength(words, b); }
    forall c | 0 <= c < NUMBER_OF_BUCKETS
      ensures ChainOk(lists'[c], link', chains'[c]) && FiledIn(free', chains'[c], c)
    {
      assert FiledIn(free, chains[c], c);
      if c == b {
        TwoWayPush(lists[b], link, chains[b], a);
      } else {
        PushElsewhere(lists, words, link, chains, free, a, b, c);
      }
    }
    forall x | x in free'
      ensures Filed(chains', free', x)
    {
      if x != a { assert Filed(chains, free, x); }
    }
    forall i: nat
      ensures Has(words', i) <==> i < NUMBER_OF_BUCKETS && chains'[i] != []
    {
      SetAffectsOne(words, b, i);
    }
  }

  lemma SetKeepsLength(words: seq<bv32>, b: nat)
    requires b / 32 < |words|
    ensures |SetFreeListBit(words, b)| == |words| == |ClearFreeListBit(words, b)|
  {
  }

  lemma PushElsewhere(lists: seq<nat>, words: seq<bv32>, link: map<nat, Link>, chains: seq<seq<nat>>, free: map<nat,
                      nat>, a: nat, b: nat, c: nat)
    requires ListsOk(lists, words, link, chains, free) && a !in free && b < NUMBER_OF_BUCKETS && c < NUMBER_OF_BUCKETS
    requires b != c
    ensures ChainOk(lists[c], PushLinks(link, lists[b], a), chains[c])
  {
    HeadIsMember(lists, words, link, chains, free, b);
    hide Has, ChainOk, Bucket;
    assert FiledIn(free, chains[b], b) && FiledIn(free, chains[c], c);
    TwoWayFrame(lists[c], link, PushLinks(link, lists[b], a), chains[c]);
  }

  /** The heads and the bitmap after area a has been taken out of bucket b. */
  function UnlinkHeads(lists: seq<nat>, b: nat, a: nat, next: nat): seq<nat>
    requires b < |lists|
  {
    if lists[b] == a then lists[b := next] else lists
  }

  function UnlinkBits(lists: seq<nat>, words: seq<bv32>, b: nat, a: nat, next: nat): seq<bv32>
    requires b < |lists| && b / 32 < |words|
  {
    if lists[b] == a && next == 0 then ClearFreeListBit(words, b) else words
  }

  /** Unfiling a free area: only its neighbours in the chain, the head and the bitmap notice. */
  lemma UnlinkOk(lists: seq<nat>, words: seq<bv32>, link: map<nat, Link>, chains: seq<seq<nat>>, free: map<nat, nat>,
                 b: nat, k: nat, a: nat)
    requires ListsOk(lists, words, link, chains, free) && b < NUMBER_OF_BUCKETS && k < |chains[b]| && a == chains[b][k]
    ensures a in link
    ensures ListsOk(UnlinkHeads(lists, b, a, link[a].next), UnlinkBits(lists, words, b, a, link[a].next),
              UnlinkLinks(link, a),
                    chains[b := Without(chains[b], k)], free - {a})
  {
    hide Has, ClearFreeListBit, Bucket, ChainOk, UnlinkLinks;
    TwoWayUnlink(lists[b], link, chains[b], k);
    var next := link[a].next;
    var lists', words' := UnlinkHeads(lists, b, a, next), UnlinkBits(lists, words, b, a, next);
    var link', chains', free' := UnlinkLinks(link, a), chains[b := Without(chains[b], k)], free - {a};
    SetKeepsLength(words, b);
    forall c | 0 <= c < NUMBER_OF_BUCKETS
      ensures ChainOk(lists'[c], link', chains'[c]) && FiledIn(free', chains'[c], c)
    {
      assert FiledIn(free, chains[c], c);
      if c == b {
        UnlinkedGone(lists[b], link, chains[b], k);
      } else {
        UnlinkElsewhere(lists, words, link, chains, free, b, k, c);
      }
    }
    forall x | x in free'
      ensures Filed(chains', free', x)
    {
      assert Filed(chains, free, x);
      if x in chains[b] { OthersStay(chains[b], k, x); }
    }
    UnlinkedBits(lists, words, link, chains, free, b, k, a, chains');
  }

  lemma UnlinkedBits(lists: seq<nat>, words: seq<bv32>, link: map<nat, Link>, chains: seq<seq<nat>>, free: map<nat,
                     nat>, b: nat, k: nat, a: nat,
                     chains': seq<seq<nat>>)
    requires ListsOk(lists, words, link, chains, free) && b < NUMBER_OF_BUCKETS && k < |chains[b]| && a == chains[b][k]
    requires a in link
    requires chains' == chains[b := Without(chains[b], k)]
    ensures forall i: nat :: Has(UnlinkBits(lists, words, b, a, link[a].next), i) <==>
              i < NUMBER_OF_BUCKETS && chains'[i] != []
  {
    hide Has, ClearFreeListBit, Bucket, ChainOk, FiledIn, Filed;
    TwoWayUnlink(lists[b], link, chains[b], k);
    forall i: nat
      ensures Has(UnlinkBits(lists, words, b, a, link[a].next), i) <==> i < NUMBER_OF_BUCKETS && chains'[i] != []
    {
      ClearAffectsOne(words, b, i);
    }
  }

  lemma OthersStay(chain: seq<nat>, k: nat, x: nat)
    requires k < |chain| && x in chain && x != chain[k]
    ensures x in Without(chain, k)
  {
    var i :| 0 <= i < |chain| && chain[i] == x;
    assert Without(chain, k)[if i < k then i else i - 1] == x;
  }

  lemma UnlinkedGone(head: nat, link: map<nat, Link>, chain: seq<nat>, k: nat)
    requires ChainOk(head, link, chain) && k < |chain|
    ensures chain[k] !in Without(chain, k)
    ensures forall x :: x in Without(chain, k) ==> x in chain
  {
  }

  lemma UnlinkElsewhere(lists: seq<nat>, words: seq<bv32>, link: map<nat, Link>, chains: seq<seq<nat>>, free: map<nat,
                        nat>, b: nat, k: nat, c: nat)
    requires ListsOk(lists, words, link, chains, free) && b < NUMBER_OF_BUCKETS && k < |chains[b]|
    requires c < NUMBER_OF_BUCKETS && b != c
    ensures chains[b][k] in link
    ensures ChainOk(lists[c], UnlinkLinks(link, chains[b][k]), chains[c])
    ensures chains[b][k] !in chains[c]
  {
    NeighboursInChain(lists[b], link, chains[b], k);
    hide Has, ChainOk, Bucket;
    assert FiledIn(free, chains[b], b) && FiledIn(free, chains[c], c);
    TwoWayFrame(lists[c], link, UnlinkLinks(link, chains[b][k]), chains[c]);
  }

  lemma NeighboursInChain(head: nat, link: map<nat, Link>, chain: seq<nat>, k: nat)
    requires ChainOk(head, link, chain) && k < |chain|
    ensures chain[k] in link
    ensures link[chain[k]].next != 0 ==> link[chain[k]].next in chain
    ensures link[chain[k]].prev != 0 ==> link[chain[k]].prev in chain
  {
    assert TwoWayLinkedAt(link, chain, k);
  }
}
