/** Folder navigation: the open folder and the breadcrumb trail from the
    root to it. The trail is a stack of visited folders; navigating to a
    folder already on it cuts the trail back to that entry, navigating to
    any other identifier pushes a new entry. */
module Navigation {

  /** One entry of the breadcrumb trail. */
  datatype Crumb = Crumb(id: string, name: string)

  const RootId: string := "root"
  const RootCrumb: Crumb := Crumb(RootId, "My Drive")

  /** The identifiers of the trail, in order. */
  function Ids(trail: seq<Crumb>): (ids: seq<string>)
    ensures |ids| == |trail|
    ensures forall k :: 0 <= k < |trail| ==> ids[k] == trail[k].id
  {
    seq(|trail|, k requires 0 <= k < |trail| => trail[k].id)
  }

  /** No identifier occurs twice on the trail. */
  predicate DistinctIds(trail: seq<Crumb>)
  {
    forall i, j :: 0 <= i < j < |trail| ==> trail[i].id != trail[j].id
  }

  /** What every reachable state satisfies: the trail is non-empty, starts
      at the root entry, ends at the open folder and never repeats an
      identifier. */
  predicate TrailInvariant(current: string, trail: seq<Crumb>)
  {
    && |trail| > 0
    && trail[0] == RootCrumb
    && trail[|trail| - 1].id == current
    && DistinctIds(trail)
  }

  /** `findIndex` on the trail: the position of the first entry whose
      identifier is `id`, or -1 when there is none. */
  function FirstIndex(trail: seq<Crumb>, id: string): (r: int)
    ensures -1 <= r < |trail|
    ensures r >= 0 ==> trail[r].id == id
    ensures r >= 0 ==> forall j :: 0 <= j < r ==> trail[j].id != id
    ensures r < 0 ==> forall j :: 0 <= j < |trail| ==> trail[j].id != id
  {
    if |trail| == 0 then -1
    else if trail[0].id == id then 0
    else
      var k := FirstIndex(trail[1..], id);
      if k < 0 then -1 else k + 1
  }

  /** The trail after navigating to (`id`, `name`): it always ends at the
      target, and it is the old trail cut back or extended by one entry. */
  function NextTrail(trail: seq<Crumb>, id: string, name: string): (r: seq<Crumb>)
    ensures |r| > 0 && r[|r| - 1].id == id
    ensures r <= trail + [Crumb(id, name)]
  {
    var i := FirstIndex(trail, id);
    if i >= 0 then trail[..i + 1] else trail + [Crumb(id, name)]
  }

  /** The linear scan behind `findIndex`. */
  method FindIndex(trail: seq<Crumb>, id: string) returns (index: int)
    ensures index == FirstIndex(trail, id)
  {
    var k := 0;
    while k < |trail|
      invariant 0 <= k <= |trail|
      invariant forall j :: 0 <= j < k ==> trail[j].id != id
    {
      if trail[k].id == id {
        return k;
      }
      k := k + 1;
    }
    return -1;
  }

  /** Jump back: when `id` is on the trail, the new trail is the old one's
      prefix ending at the first entry for `id`; the name passed is unused. */
  lemma NavigateBack(trail: seq<Crumb>, id: string, name: string)
    requires id in Ids(trail)
    ensures var r := NextTrail(trail, id, name);
            && 0 < |r| <= |trail|
            && r == trail[..|r|]
            && r[|r| - 1].id == id
            && (forall j :: 0 <= j < |r| - 1 ==> r[j].id != id)
  {
  }

  /** Descend: when `id` is not on the trail, the new trail is the old one
      with (`id`, `name`) pushed, every earlier entry unchanged. */
  lemma NavigateForward(trail: seq<Crumb>, id: string, name: string)
    requires id !in Ids(trail)
    ensures NextTrail(trail, id, name) == trail + [Crumb(id, name)]
  {
  }

  /** On a match the stored entry keeps its own name, whatever name is
      passed. */
  lemma NameIgnoredOnMatch(trail: seq<Crumb>, id: string, name1: string, name2: string)
    requires id in Ids(trail)
    ensures NextTrail(trail, id, name1) == NextTrail(trail, id, name2)
  {
  }

  /** Navigation keeps the trail invariant, with the target as the new open
      folder, whatever the target is. */
  lemma NextTrailKeepsInvariant(current: string, trail: seq<Crumb>, id: string, name: string)
    requires TrailInvariant(current, trail)
    ensures TrailInvariant(id, NextTrail(trail, id, name))
  {
  }

  /** Navigating to the open folder leaves a valid trail unchanged. */
  lemma NavigateToCurrentIsNoOp(current: string, trail: seq<Crumb>, name: string)
    requires TrailInvariant(current, trail)
    ensures NextTrail(trail, current, name) == trail
  {
  }

  /** The state reached from the initial state by a sequence of clicks,
      each click naming the target's identifier and display name. */
  function Session(clicks: seq<Crumb>): (state: (string, seq<Crumb>))
    ensures |state.1| > 0 && state.1[0] == RootCrumb
    ensures state.1[|state.1| - 1].id == state.0
  {
    if |clicks| == 0 then (RootId, [RootCrumb])
    else
      var last := clicks[|clicks| - 1];
      (last.id, NextTrail(Session(clicks[..|clicks| - 1]).1, last.id, last.name))
  }

  /** Every state reachable from the initial one satisfies the invariant. */
  lemma {:induction false} SessionKeepsInvariant(clicks: seq<Crumb>)
    ensures TrailInvariant(Session(clicks).0, Session(clicks).1)
  {
    if |clicks| > 0 {
      var prefix := clicks[..|clicks| - 1];
      var last := clicks[|clicks| - 1];
      SessionKeepsInvariant(prefix);
      NextTrailKeepsInvariant(Session(prefix).0, Session(prefix).1, last.id, last.name);
    }
  }

  /** The two state slots of the page: the open folder and its trail. */
  class NavigationState {
    var currentFolder: string
    var breadcrumbs: seq<Crumb>

    predicate Valid()
      reads this
    {
      TrailInvariant(currentFolder, breadcrumbs)
    }

    /** The initial state: the root folder and the one-entry trail. */
    constructor ()
      ensures currentFolder == RootId && breadcrumbs == [RootCrumb]
      ensures Valid()
    {
      currentFolder := RootId;
      breadcrumbs := [RootCrumb];
    }

    /** `navigateToFolder`: cut the trail back to `folderId` when it is on
        it, push (`folderId`, `folderName`) otherwise; then open `folderId`,
        whether or not it names a folder in the store. */
    method Navigate(folderId: string, folderName: string)
      modifies this
      ensures breadcrumbs == NextTrail(old(breadcrumbs), folderId, folderName)
      ensures currentFolder == folderId
      ensures old(Valid()) ==> Valid()
    {
      ghost var before := breadcrumbs;
      ghost var wasValid := Valid();
      ghost var oldCurrent := currentFolder;
      var existingIndex := FindIndex(breadcrumbs, folderId);
      if existingIndex >= 0 {
        breadcrumbs := breadcrumbs[..existingIndex + 1];
      } else {
        breadcrumbs := breadcrumbs + [Crumb(folderId, folderName)];
      }
      currentFolder := folderId;
      if wasValid {
        NextTrailKeepsInvariant(oldCurrent, before, folderId, folderName);
      }
    }
  }
}
