/**
 * The stand-alone default CoS map that other daemons build and release: eight records
 * in code-point order, each with only its four configuration fields filled in.
 */
module QosUtils {
  import opened Wrappers
  import opened QosConstants
  import opened QosMaps

  /**
   * The allocator's state: the addresses of the live allocations, and the address the
   * next allocation gets.
   */
  datatype Heap = Heap(live: set<nat>, next: nat)

  /** Every live address lies below the next one, so the next one is free. */
  predicate HeapValid(h: Heap) {
    forall p :: p in h.live ==> p < h.next
  }

  /** A heap with a new allocation at `ptr` holding the map's records. */
  datatype Allocation = Allocation(heap: Heap, ptr: nat, records: seq<CosSetting>)

  /**
   * Allocates an array of eight records and fills in the default CoS map: record i is
   * for code point i. The block is fresh, and it is the only allocation added.
   */
  function CreateDefaultCosMap(h: Heap): (r: Allocation)
    requires HeapValid(h)
    ensures HeapValid(r.heap)
    ensures r.ptr !in h.live
    ensures r.heap.live == h.live + {r.ptr}
    ensures |r.records| == CosMapEntryCount
    ensures forall i :: 0 <= i < |r.records| ==>
      && r.records[i].codePoint == i
      && r.records[i].localPriority == CosLocalPriority(i)
      && 0 <= r.records[i].localPriority <= MaxLocalPriority
      && r.records[i].color == "green"
    ensures forall i, j :: 0 <= i < j < |r.records| ==>
      r.records[i].localPriority != r.records[j].localPriority && r.records[i].description != r.records[j].description
  {
    var records := [
      CosSetting(0, 1, "green", "Best_Effort"),
      CosSetting(1, 0, "green", "Background"),
      CosSetting(2, 2, "green", "Excellent_Effort"),
      CosSetting(3, 3, "green", "Critical_Applications"),
      CosSetting(4, 4, "green", "Video"),
      CosSetting(5, 5, "green", "Voice"),
      CosSetting(6, 6, "green", "Internetwork_Control"),
      CosSetting(7, 7, "green", "Network_Control")
    ];
    Allocation(Heap(h.live + {h.next}, h.next + 1), h.next, records)
  }

  /** The stand-alone map and the one the bootstrap installs are the same table. */
  lemma CreateDefaultCosMapAgreesWithBootstrap(h: Heap)
    requires HeapValid(h)
    ensures CreateDefaultCosMap(h).records == DefaultCosSettings
  {
  }

  /**
   * Releases a map built by CreateDefaultCosMap: a null map is a no-op, and any other
   * map must be live and is the one allocation removed.
   */
  function DestroyDefaultCosMap(h: Heap, cosMap: Option<nat>): (r: Heap)
    requires cosMap.Some? ==> cosMap.value in h.live
    ensures r.next == h.next
    ensures r.live <= h.live
    ensures HeapValid(h) ==> HeapValid(r)
    ensures cosMap.None? ==> r == h
    ensures cosMap.Some? ==> cosMap.value !in r.live && |r.live| == |h.live| - 1
  {
    match cosMap
    case None => h
    case Some(p) => h.(live := h.live - {p})
  }

  /**
   * Building the map and then releasing it leaves exactly the allocations that were
   * live before, in a heap that is still well formed.
   */
  lemma CreateThenDestroy(h: Heap)
    requires HeapValid(h)
    ensures var a := CreateDefaultCosMap(h);
      var h' := DestroyDefaultCosMap(a.heap, Some(a.ptr));
      && h'.live == h.live
      && HeapValid(h')
  {
  }
}
