/** The listing of the open folder: the folder's children looked up in the
    store, in stored order, with identifiers that do not resolve dropped. */
module FolderListing {
  import opened DriveItems

  /** The `map` step: each child identifier looked up in the store. */
  function LookupAll(store: Store, ids: seq<string>): (r: seq<Option<DriveItem>>)
    ensures |r| == |ids|
    ensures forall k :: 0 <= k < |ids| ==> r[k] == Lookup(store, ids[k])
  {
    seq(|ids|, k requires 0 <= k < |ids| => Lookup(store, ids[k]))
  }

  /** The `filter` step: keeps the present values, in order. */
  function Present(opts: seq<Option<DriveItem>>): (r: seq<DriveItem>)
    ensures |r| <= |opts|
    ensures forall x :: x in r ==> Some(x) in opts
  {
    if |opts| == 0 then []
    else
      Present(opts[..|opts| - 1]) +
      (match opts[|opts| - 1] case Some(x) => [x] case None => [])
  }

  /** The listing for the folder identified by `current`: empty when the
      identifier is absent or names a file; otherwise the children that
      resolve, each at most once per occurrence, all of them store values. */
  function FolderContents(store: Store, current: string): (r: seq<DriveItem>)
    ensures current !in store ==> r == []
    ensures current in store && !IsFolder(store[current]) ==> r == []
    ensures current in store && IsFolder(store[current]) ==>
              |r| <= |store[current].children|
    ensures forall x :: x in r ==> x in store.Values
  {
    match Lookup(store, current)
    case None => []
    case Some(item) =>
      if IsFolder(item) then Present(LookupAll(store, item.children)) else []
  }

  /** Independent description of the listing: the positions, in increasing
      order, of the identifiers in `ids` that resolve in the store. */
  function ResolvingPositions(store: Store, ids: seq<string>): (ps: seq<nat>)
    ensures forall k :: 0 <= k < |ps| ==> ps[k] < |ids| && ids[ps[k]] in store
    ensures forall k, l :: 0 <= k < l < |ps| ==> ps[k] < ps[l]
    ensures forall j :: 0 <= j < |ids| && ids[j] in store ==> j in ps
  {
    if |ids| == 0 then []
    else
      var n := |ids| - 1;
      ResolvingPositions(store, ids[..n]) + (if ids[n] in store then [n] else [])
  }

  /** Filtering distributes over concatenation: the filter keeps order. */
  lemma {:induction false} PresentAppend(a: seq<Option<DriveItem>>, b: seq<Option<DriveItem>>)
    ensures Present(a + b) == Present(a) + Present(b)
    decreases |b|
  {
    if |b| == 0 {
      assert a + b == a;
    } else {
      var n := |b| - 1;
      assert (a + b)[..|a + b| - 1] == a + b[..n];
      PresentAppend(a, b[..n]);
    }
  }

  /** The `map` step commutes with taking a prefix of the identifiers. */
  lemma LookupAllPrefix(store: Store, ids: seq<string>, n: nat)
    requires n <= |ids|
    ensures LookupAll(store, ids)[..n] == LookupAll(store, ids[..n])
  {
  }

  /** The mapped-then-filtered sequence is exactly the store entries at the
      resolving positions: element `k` is the entry of the `k`-th child
      identifier that resolves. */
  lemma {:induction false} PresentLookupAllAtPositions(store: Store, ids: seq<string>)
    ensures |Present(LookupAll(store, ids))| == |ResolvingPositions(store, ids)|
    ensures forall k :: 0 <= k < |ResolvingPositions(store, ids)| ==>
              Present(LookupAll(store, ids))[k] == store[ids[ResolvingPositions(store, ids)[k]]]
  {
    if |ids| > 0 {
      var n := |ids| - 1;
      LookupAllPrefix(store, ids, n);
      PresentLookupAllAtPositions(store, ids[..n]);
    }
  }

  /** The listing of a folder is exactly the store entries of the children
      that resolve, in the children's order, and none of the others. */
  lemma FolderContentsExact(store: Store, current: string)
    requires current in store && store[current].Folder?
    ensures var r := FolderContents(store, current);
            var ids := store[current].children;
            var ps := ResolvingPositions(store, ids);
            |r| == |ps| &&
            (forall k :: 0 <= k < |ps| ==> r[k] == store[ids[ps[k]]])
  {
    PresentLookupAllAtPositions(store, store[current].children);
  }

  /** Every child that resolves contributes its entry to the listing. */
  lemma ResolvedChildListed(store: Store, current: string, j: nat)
    requires current in store && store[current].Folder?
    requires j < |store[current].children| && store[current].children[j] in store
    ensures store[store[current].children[j]] in FolderContents(store, current)
  {
    var ids := store[current].children;
    var ps := ResolvingPositions(store, ids);
    FolderContentsExact(store, current);
    var k :| 0 <= k < |ps| && ps[k] == j;
    assert FolderContents(store, current)[k] == store[ids[j]];
  }

  /** When every child resolves, the listing is the children mapped through
      the store, one entry per child. */
  lemma {:induction false} PresentAllResolve(store: Store, ids: seq<string>)
    requires forall j :: 0 <= j < |ids| ==> ids[j] in store
    ensures |Present(LookupAll(store, ids))| == |ids|
    ensures forall k :: 0 <= k < |ids| ==> Present(LookupAll(store, ids))[k] == store[ids[k]]
  {
    if |ids| > 0 {
      var n := |ids| - 1;
      LookupAllPrefix(store, ids, n);
      PresentAllResolve(store, ids[..n]);
    }
  }

  /** When every child of a folder resolves, its listing is the children
      mapped through the store, one entry per child, in order. */
  lemma FolderContentsAllResolve(store: Store, current: string)
    requires current in store && store[current].Folder?
    requires forall j :: 0 <= j < |store[current].children| ==> store[current].children[j] in store
    ensures var r := FolderContents(store, current);
            var ids := store[current].children;
            |r| == |ids| && (forall k :: 0 <= k < |ids| ==> r[k] == store[ids[k]])
  {
    PresentAllResolve(store, store[current].children);
  }

  /** A folder with no children lists nothing. */
  lemma EmptyFolderListsNothing(store: Store, current: string)
    requires current in store && store[current].Folder? && store[current].children == []
    ensures FolderContents(store, current) == []
  {
  }
}
