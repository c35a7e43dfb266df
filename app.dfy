/** The top-level component: the current view and the lists of memories and
    milestones, kept as state and replaced through their setters. */
module App {
  import opened Js
  import opened Types
  import opened Gallery

  /** `m.imageUrl` is truthy: present and not the empty string. */
  predicate HasImageUrl(m: Memory) {
    m.imageUrl.Some? && m.imageUrl.value != ""
  }

  /** `memories.filter(m => m.imageUrl).length`, the photo figure on the
      profile page. */
  function PhotoStat(memories: seq<Memory>): (n: nat)
    ensures n <= |memories|
  {
    if memories == [] then 0
    else (if HasImageUrl(memories[0]) then 1 else 0) + PhotoStat(memories[1..])
  }

  /** The profile's photo figure counts every photo the gallery shows, and
      also any memory whose address is only white space, which the gallery
      hides: the two agree exactly when there is no such memory. */
  lemma {:induction false} PhotoStatCoversGallery(memories: seq<Memory>)
    ensures |Photos(memories)| <= PhotoStat(memories)
    ensures |Photos(memories)| == PhotoStat(memories)
        <==> forall i :: 0 <= i < |memories| ==> (HasImageUrl(memories[i]) ==> HasPhoto(memories[i]))
  {
    if memories != [] {
      PhotoStatCoversGallery(memories[1..]);
      assert forall i :: 1 <= i < |memories| ==> memories[i] == memories[1..][i - 1];
    }
  }

  class AppState {
    var view: AppView
    var memories: seq<Memory>
    var milestones: seq<Milestone>

    /** The initial state: the timeline, with the sample lists. */
    constructor (initialMemories: seq<Memory>, initialMilestones: seq<Milestone>)
      ensures view == TimelineView
      ensures memories == initialMemories && milestones == initialMilestones
    {
      view := TimelineView;
      memories := initialMemories;
      milestones := initialMilestones;
    }

    /** `handleAddMemory`: the new memory goes in front and the timeline is
        shown; the memory figure rises by one, the photo figure by one
        exactly when the memory has an address. */
    method AddMemory(memory: Memory)
      modifies this
      ensures memories == [memory] + old(memories)
      ensures view == TimelineView
      ensures milestones == old(milestones)
      ensures MemoryStat() == old(MemoryStat()) + 1
      ensures PhotoCount() == old(PhotoCount()) + (if HasImageUrl(memory) then 1 else 0)
    {
      AddMemoryStats(memory, memories);
      memories := [memory] + memories;
      view := TimelineView;
    }

    /** The add view's cancel button. */
    method CancelAdd()
      modifies this
      ensures view == TimelineView
      ensures memories == old(memories) && milestones == old(milestones)
    {
      view := TimelineView;
    }

    /** `setView(v)`, as the navigation bar calls it. */
    method Navigate(v: AppView)
      modifies this
      ensures view == v
      ensures memories == old(memories) && milestones == old(milestones)
    {
      view := v;
    }

    /** `setMilestones`, the milestone manager's update callback. */
    method SetMilestones(updated: seq<Milestone>)
      modifies this
      ensures milestones == updated
      ensures view == old(view) && memories == old(memories)
    {
      milestones := updated;
    }

    /** The memory figure on the profile page. */
    function MemoryStat(): nat
      reads this
    {
      |memories|
    }

    /** The photo figure on the profile page. */
    function PhotoCount(): (n: nat)
      reads this
      ensures n <= MemoryStat()
    {
      PhotoStat(memories)
    }
  }

  /** Adding a memory raises the memory figure by one and the photo figure by
      one exactly when the new memory has an address. */
  lemma AddMemoryStats(memory: Memory, memories: seq<Memory>)
    ensures |[memory] + memories| == |memories| + 1
    ensures PhotoStat([memory] + memories) == PhotoStat(memories) + (if HasImageUrl(memory) then 1 else 0)
  {
    assert ([memory] + memories)[1..] == memories;
  }
}
