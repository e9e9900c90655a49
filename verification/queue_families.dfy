/** The queue families a device offers and the search for one that can draw
    (`VK_QUEUE_GRAPHICS_BIT`) and one that can present to the window
    surface. */
module QueueFamilies {
  import opened Wrappers

  const GraphicsBit: bv32 := 1

  /** One `VkQueueFamilyProperties` entry, with the surface-support answer
      the driver gives for its index. */
  datatype QueueFamily = QueueFamily(queueFlags: bv32, presentSupport: bool)

  /** `QueueFamilyIndices`. */
  datatype QueueFamilyIndices = QueueFamilyIndices(graphicsFamily: Option<nat>, presentFamily: Option<nat>)

  predicate CanDraw(q: QueueFamily) {
    q.queueFlags & GraphicsBit != 0
  }

  /** `operator bool`: both families are known. */
  predicate Complete(ix: QueueFamilyIndices) {
    ix.graphicsFamily.Some? && ix.presentFamily.Some?
  }

  /** `operator std::set<uint32_t>`: the distinct family indices in use. */
  function FamilySet(ix: QueueFamilyIndices): (s: set<nat>)
    ensures forall x :: x in s <==> ix.graphicsFamily == Some(x) || ix.presentFamily == Some(x)
  {
    (if ix.graphicsFamily.Some? then {ix.graphicsFamily.value} else {})
    + (if ix.presentFamily.Some? then {ix.presentFamily.value} else {})
  }

  /** The last family below `n` that can draw. */
  function LastDrawing(fs: seq<QueueFamily>, n: nat): (r: Option<nat>)
    requires n <= |fs|
    ensures r.Some? ==> r.value < n && CanDraw(fs[r.value])
    ensures r.Some? ==> forall j :: r.value < j < n ==> !CanDraw(fs[j])
    ensures r.None? ==> forall j :: 0 <= j < n ==> !CanDraw(fs[j])
  {
    if n == 0 then None
    else if CanDraw(fs[n - 1]) then Some(n - 1)
    else LastDrawing(fs, n - 1)
  }

  /** The last family below `n` that can present. */
  function LastPresenting(fs: seq<QueueFamily>, n: nat): (r: Option<nat>)
    requires n <= |fs|
    ensures r.Some? ==> r.value < n && fs[r.value].presentSupport
    ensures r.Some? ==> forall j :: r.value < j < n ==> !fs[j].presentSupport
    ensures r.None? ==> forall j :: 0 <= j < n ==> !fs[j].presentSupport
  {
    if n == 0 then None
    else if fs[n - 1].presentSupport then Some(n - 1)
    else LastPresenting(fs, n - 1)
  }

  /** What the search knows after looking at the first `n` families. */
  function SeenAfter(fs: seq<QueueFamily>, n: nat): QueueFamilyIndices
    requires n <= |fs|
  {
    QueueFamilyIndices(LastDrawing(fs, n), LastPresenting(fs, n))
  }

  /** How many families the search looks at: up to and including the first
      one after which both kinds have been seen, or all of them. */
  function ScanLength(fs: seq<QueueFamily>, n: nat): (k: nat)
    requires n <= |fs|
    ensures n <= k <= |fs|
    ensures k == |fs| || Complete(SeenAfter(fs, k))
    ensures forall m :: n < m < k ==> !Complete(SeenAfter(fs, m))
    decreases |fs| - n
  {
    if n == |fs| then n
    else if Complete(SeenAfter(fs, n + 1)) then n + 1
    else ScanLength(fs, n + 1)
  }

  /** `find_queue_families`: every family overwrites the graphics index when
      it can draw and the present index when it can present, and the search
      returns as soon as both are known. */
  method FindQueueFamilies(fs: seq<QueueFamily>) returns (r: QueueFamilyIndices)
    ensures r == SeenAfter(fs, ScanLength(fs, 0))
    ensures r.graphicsFamily.Some? ==> r.graphicsFamily.value < |fs| && CanDraw(fs[r.graphicsFamily.value])
    ensures r.presentFamily.Some? ==> r.presentFamily.value < |fs| && fs[r.presentFamily.value].presentSupport
    ensures Complete(r) <==> (exists i :: 0 <= i < |fs| && CanDraw(fs[i])) && (exists j :: 0 <= j < |fs| && fs[j].presentSupport)
  {
    r := QueueFamilyIndices(None, None);
    var i := 0;
    while i < |fs|
      invariant 0 <= i <= |fs|
      invariant r == SeenAfter(fs, i)
      invariant !Complete(r)
      invariant ScanLength(fs, 0) == ScanLength(fs, i)
    {
      if fs[i].queueFlags & GraphicsBit != 0 {
        r := r.(graphicsFamily := Some(i));
      }
      if fs[i].presentSupport {
        r := r.(presentFamily := Some(i));
      }
      if Complete(r) {
        CompleteMeansBothExist(fs, i + 1);
        return;
      }
      i := i + 1;
    }
    BothFoundByTheEnd(fs);
  }

  // ---------------------------------------------------------------------------
  // Proofs

  lemma CompleteMeansBothExist(fs: seq<QueueFamily>, n: nat)
    requires n <= |fs|
    requires Complete(SeenAfter(fs, n))
    ensures (exists i :: 0 <= i < |fs| && CanDraw(fs[i])) && (exists j :: 0 <= j < |fs| && fs[j].presentSupport)
  {
    var g := LastDrawing(fs, n).value;
    var p := LastPresenting(fs, n).value;
    assert CanDraw(fs[g]) && fs[p].presentSupport;
  }

  /** When both kinds exist, scanning every family finds both. */
  lemma BothFoundByTheEnd(fs: seq<QueueFamily>)
    ensures (exists i :: 0 <= i < |fs| && CanDraw(fs[i])) && (exists j :: 0 <= j < |fs| && fs[j].presentSupport)
      ==> Complete(SeenAfter(fs, |fs|))
  {
    if (exists i :: 0 <= i < |fs| && CanDraw(fs[i])) && (exists j :: 0 <= j < |fs| && fs[j].presentSupport) {
      var i :| 0 <= i < |fs| && CanDraw(fs[i]);
      var j :| 0 <= j < |fs| && fs[j].presentSupport;
      assert LastDrawing(fs, |fs|).Some?;
      assert LastPresenting(fs, |fs|).Some?;
    }
  }

  /** Without a family that can draw, the search fails. */
  lemma NoDrawingFamily(fs: seq<QueueFamily>)
    requires forall i :: 0 <= i < |fs| ==> !CanDraw(fs[i])
    ensures !Complete(SeenAfter(fs, ScanLength(fs, 0)))
  {
  }

  /** One family that does both is found at once and used for both. */
  lemma SharedFamilyFirst(fs: seq<QueueFamily>)
    requires |fs| > 0 && CanDraw(fs[0]) && fs[0].presentSupport
    ensures SeenAfter(fs, ScanLength(fs, 0)) == QueueFamilyIndices(Some(0), Some(0))
    ensures FamilySet(QueueFamilyIndices(Some(0), Some(0))) == {0}
  {
  }

  /** The set has one element per distinct family: complete indices name
      one or two families, incomplete ones at most one. */
  lemma FamilySetSize(ix: QueueFamilyIndices)
    ensures Complete(ix) ==> |FamilySet(ix)| == if ix.graphicsFamily == ix.presentFamily then 1 else 2
    ensures !Complete(ix) ==> |FamilySet(ix)| <= 1
  {
  }

  /** The search does not look for the best family: with drawing-only
      family 0, presenting-only family 1 and an all-round family 2, it stops
      at 1 and uses two different families. */
  lemma StopsBeforeSharedFamily()
    ensures var fs := [QueueFamily(1, false), QueueFamily(0, true), QueueFamily(1, true)];
      SeenAfter(fs, ScanLength(fs, 0)) == QueueFamilyIndices(Some(0), Some(1))
  {
    var fs := [QueueFamily(1, false), QueueFamily(0, true), QueueFamily(1, true)];
    assert CanDraw(fs[0]) && !fs[0].presentSupport;
    assert !CanDraw(fs[1]) && fs[1].presentSupport;
    assert !Complete(SeenAfter(fs, 1));
    assert SeenAfter(fs, 2) == QueueFamilyIndices(Some(0), Some(1));
    assert ScanLength(fs, 1) == 2;
  }
}
