/** The soundboard screen (screens/Soundboard/index.tsx): the registry of
    sounds that are playing, the search filter over the groups, and the
    selection that the bottom sheet's Delete and Cancel act on. */
module Soundboard {
  import opened Effects
  import opened Text
  import opened Groups

  /** An opaque playback handle (an `Audio.Sound`) returned by the audio
      capability. Every handle is a truthy object. */
  datatype Handle = Handle(token: nat)

  /** The part of a playback status update the screen reads. */
  datatype PlaybackStatus = PlaybackStatus(didJustFinish: bool, positionMillis: nat)

  /** A call the screen makes into the audio capability, in the order made. */
  datatype AudioCall =
    | CreateAsync(uri: string)
    | StopAsync(handle: Handle)
    | UnloadAsync(handle: Handle)

  /** What the bottom sheet's Delete asks the database to remove. */
  datatype Target = SoundTarget(soundId: int) | GroupTarget(groupId: int)

  /** One section of the list: a group's title and id, and its sounds. */
  datatype Section = Section(title: string, id: int, data: seq<Sound>)

  // ---------------------------------------------------------------------
  // The search filter.

  /** `sounds.filter(s => s.name.indexOf(filter) > -1)`. */
  function FilterSounds(sounds: seq<Sound>, filter: string): (r: seq<Sound>)
    ensures |r| <= |sounds|
    ensures forall s :: s in r <==> s in sounds && Contains(s.name, filter)
  {
    if sounds == [] then []
    else
      var rest := FilterSounds(sounds[1..], filter);
      assert forall s :: s in sounds <==> s == sounds[0] || s in sounds[1..];
      if IndexOf(sounds[0].name, filter) > -1 then [sounds[0]] + rest else rest
  }

  /** Filtering commutes with concatenation, so the sounds kept stay in their
      original order. */
  lemma {:induction false} FilterSoundsAppend(a: seq<Sound>, b: seq<Sound>, filter: string)
    ensures FilterSounds(a + b, filter) == FilterSounds(a, filter) + FilterSounds(b, filter)
    decreases |a|
  {
    if a == [] {
      assert a + b == b;
    } else {
      assert (a + b)[0] == a[0] && (a + b)[1..] == a[1..] + b;
      FilterSoundsAppend(a[1..], b, filter);
    }
  }

  /** Every name contains the empty string, so filtering by it keeps every
      sound: the `length > 0` guard only skips work. */
  lemma {:induction false} EmptyFilterKeepsAll(sounds: seq<Sound>)
    ensures FilterSounds(sounds, "") == sounds
    decreases |sounds|
  {
    if sounds != [] {
      assert OccursAt(sounds[0].name, "", 0);
      EmptyFilterKeepsAll(sounds[1..]);
    }
  }

  /** `groupData`: one section per group, in group order; with an empty
      filter each keeps all its sounds, otherwise exactly those whose name
      contains the filter, in their original order. */
  function GroupData(groups: seq<Group>, filter: string): (r: seq<Section>)
    ensures |r| == |groups|
    ensures forall i :: 0 <= i < |r| ==> r[i].title == groups[i].name && r[i].id == groups[i].id
    ensures forall i :: 0 <= i < |r| && |filter| == 0 ==> r[i].data == groups[i].sounds
    ensures forall i, s :: 0 <= i < |r| && |filter| > 0 ==>
      (s in r[i].data <==> s in groups[i].sounds && Contains(s.name, filter))
    ensures forall i :: 0 <= i < |r| ==> r[i].data == FilterSounds(groups[i].sounds, filter)
  {
    forall g | g in groups {
      EmptyFilterKeepsAll(g.sounds);
    }
    seq(|groups|, i requires 0 <= i < |groups| =>
      Section(groups[i].name, groups[i].id,
              if |filter| > 0 then FilterSounds(groups[i].sounds, filter) else groups[i].sounds))
  }

  /** `groups.find(g => g.id === id)`: the first group with that id. */
  function FindGroup(groups: seq<Group>, id: int): (r: Option<Group>)
    ensures r.None? <==> forall g :: g in groups ==> g.id != id
    ensures r.Some? ==> r.value in groups && r.value.id == id
    ensures r.Some? ==> forall k :: 0 <= k < |groups| && groups[k].id == id ==>
      (forall j :: 0 <= j < k ==> groups[j].id != id) ==> groups[k] == r.value
  {
    if groups == [] then None
    else if groups[0].id == id then Some(groups[0])
    else
      assert forall g :: g in groups <==> g == groups[0] || g in groups[1..];
      FindGroup(groups[1..], id)
  }

  // ---------------------------------------------------------------------
  // The screen's state.

  class Screen {
    /** `activeSounds`: a sound id is playing when it has a handle here. The
        source writes `undefined` to end playback; the model drops the key. */
    var activeSounds: map<int, Handle>
    var selectedGroup: Option<Group>
    var selectedSound: Option<Sound>
    var bottomSheetVisible: bool

    constructor ()
      ensures activeSounds == map[] && selectedGroup == None && selectedSound == None
      ensures !bottomSheetVisible
    {
      activeSounds := map[];
      selectedGroup := None;
      selectedSound := None;
      bottomSheetVisible := false;
    }

    /** `handlePlaySound`: a sound already playing is left alone and nothing
        is loaded; otherwise the clip is loaded and started, and its handle is
        registered once the load returns. A throwing load registers nothing. */
    method PlaySound(item: Sound, load: Call<Handle>) returns (calls: seq<AudioCall>)
      modifies this`activeSounds
      ensures item.id in old(activeSounds) ==> activeSounds == old(activeSounds) && calls == []
      ensures item.id !in old(activeSounds) ==> calls == [CreateAsync(item.uri)]
      ensures item.id !in old(activeSounds) && load.Returned? ==>
        activeSounds == old(activeSounds)[item.id := load.value]
      ensures item.id !in old(activeSounds) && load.Threw? ==> activeSounds == old(activeSounds)
    {
      if item.id !in activeSounds {
        calls := [CreateAsync(item.uri)];
        if load.Returned? {
          activeSounds := activeSounds[item.id := load.value];
        }
      } else {
        calls := [];
      }
    }

    /** `handleStopPlayback`: a sound that is not playing is left alone;
        otherwise it is stopped, then unloaded, and its entry is cleared only
        if both calls return. A throwing stop skips the unload. */
    method StopPlayback(item: Sound, stopOk: bool, unloadOk: bool) returns (calls: seq<AudioCall>)
      modifies this`activeSounds
      ensures item.id !in old(activeSounds) ==> activeSounds == old(activeSounds) && calls == []
      ensures item.id in old(activeSounds) ==> var h := old(activeSounds)[item.id];
        && calls == (if stopOk then [StopAsync(h), UnloadAsync(h)] else [StopAsync(h)])
        && activeSounds == (if stopOk && unloadOk then old(activeSounds) - {item.id} else old(activeSounds))
    {
      if item.id in activeSounds {
        var h := activeSounds[item.id];
        calls := [StopAsync(h)];
        if stopOk {
          calls := calls + [UnloadAsync(h)];
          if unloadOk {
            activeSounds := activeSounds - {item.id};
          }
        }
      } else {
        calls := [];
      }
    }

    /** `handlePlaybackStatus`: a status that has just finished unloads the
        playing handle, if any, and then clears the entry; a throwing unload
        leaves it. Any other status changes nothing. */
    method PlaybackStatusUpdate(item: Sound, status: PlaybackStatus, unloadOk: bool) returns (calls: seq<AudioCall>)
      modifies this`activeSounds
      ensures !status.didJustFinish ==> activeSounds == old(activeSounds) && calls == []
      ensures status.didJustFinish && item.id !in old(activeSounds) ==>
        activeSounds == old(activeSounds) && calls == []
      ensures status.didJustFinish && item.id in old(activeSounds) ==>
        && calls == [UnloadAsync(old(activeSounds)[item.id])]
        && activeSounds == (if unloadOk then old(activeSounds) - {item.id} else old(activeSounds))
    {
      calls := [];
      if status.didJustFinish {
        var ok := true;
        if item.id in activeSounds {
          calls := [UnloadAsync(activeSounds[item.id])];
          ok := unloadOk;
        }
        if ok {
          activeSounds := activeSounds - {item.id};
        }
      }
    }

    /** `handleSelectGroup`: remembers the group found for the long-pressed
        header (possibly none) and shows the sheet. */
    method SelectGroup(group: Option<Group>)
      modifies this`selectedGroup, this`bottomSheetVisible
      ensures selectedGroup == group && bottomSheetVisible
    {
      selectedGroup := group;
      bottomSheetVisible := true;
    }

    /** `handleSelectSound`: remembers the long-pressed sound and shows the
        sheet. */
    method SelectSound(item: Sound)
      modifies this`selectedSound, this`bottomSheetVisible
      ensures selectedSound == Some(item) && bottomSheetVisible
    {
      selectedSound := Some(item);
      bottomSheetVisible := true;
    }

    /** `handleDeleteItem`: removes the selected sound if there is one, else
        the selected group if there is one; after the removal returns, that
        selection is cleared and the groups are fetched again. The sheet is
        hidden unless the removal throws, which ends the handler. */
    method DeleteItem(removeOk: bool) returns (removed: Option<Target>, refetched: bool)
      modifies this`selectedGroup, this`selectedSound, this`bottomSheetVisible
      ensures removed == (if old(selectedSound).Some? then Some(SoundTarget(old(selectedSound).value.id))
                          else if old(selectedGroup).Some? then Some(GroupTarget(old(selectedGroup).value.id))
                          else None)
      ensures refetched <==> removed.Some? && removeOk
      ensures removed.None? || removeOk ==> !bottomSheetVisible
      ensures removed.Some? && !removeOk ==> bottomSheetVisible == old(bottomSheetVisible)
      ensures selectedSound == (if old(selectedSound).Some? && removeOk then None else old(selectedSound))
      ensures selectedGroup == (if old(selectedSound).None? && old(selectedGroup).Some? && removeOk
                                then None else old(selectedGroup))
    {
      removed, refetched := None, false;
      if selectedSound.Some? {
        removed := Some(SoundTarget(selectedSound.value.id));
        if !removeOk {
          return;
        }
        selectedSound := None;
        refetched := true;
      } else if selectedGroup.Some? {
        removed := Some(GroupTarget(selectedGroup.value.id));
        if !removeOk {
          return;
        }
        selectedGroup := None;
        refetched := true;
      }
      bottomSheetVisible := false;
    }

    /** `handleCancelSheet`: forgets the selected sound and hides the sheet;
        the selected group is kept. */
    method CancelSheet()
      modifies this`selectedSound, this`bottomSheetVisible
      ensures selectedSound == None && !bottomSheetVisible
    {
      selectedSound := None;
      bottomSheetVisible := false;
    }
  }

  // ---------------------------------------------------------------------
  // Runs of the screen.

  /** Pressing a sound twice plays it once: the second press loads nothing
      and keeps the first handle. */
  method PlayTwice(item: Sound, first: Handle, second: Handle) returns (active: map<int, Handle>, calls: seq<AudioCall>)
    ensures active == map[item.id := first]
    ensures calls == [CreateAsync(item.uri)]
  {
    var screen := new Screen();
    var c1 := screen.PlaySound(item, Returned(first));
    var c2 := screen.PlaySound(item, Returned(second));
    active, calls := screen.activeSounds, c1 + c2;
  }

  /** A clip that plays to its end unloads itself and leaves the registry,
      and can then be played again. */
  method PlayToEnd(item: Sound, h: Handle, again: Handle, position: nat) returns (afterEnd: map<int, Handle>, afterReplay: map<int, Handle>)
    ensures afterEnd == map[]
    ensures afterReplay == map[item.id := again]
  {
    var screen := new Screen();
    var _ := screen.PlaySound(item, Returned(h));
    var _ := screen.PlaybackStatusUpdate(item, PlaybackStatus(false, position), true);
    var _ := screen.PlaybackStatusUpdate(item, PlaybackStatus(true, position), true);
    afterEnd := screen.activeSounds;
    var _ := screen.PlaySound(item, Returned(again));
    afterReplay := screen.activeSounds;
  }

  /** A load that throws leaves nothing registered, and a stop that throws
      leaves the sound registered. */
  method FailedCalls(item: Sound, h: Handle, message: string) returns (afterFailedLoad: map<int, Handle>, afterFailedStop: map<int, Handle>)
    ensures afterFailedLoad == map[]
    ensures afterFailedStop == map[item.id := h]
  {
    var screen := new Screen();
    var _ := screen.PlaySound(item, Threw(message));
    afterFailedLoad := screen.activeSounds;
    var _ := screen.PlaySound(item, Returned(h));
    var _ := screen.StopPlayback(item, false, true);
    afterFailedStop := screen.activeSounds;
  }

  /** Cancel keeps the selected group: selecting a group, cancelling, then
      selecting a sound and deleting removes the sound and leaves the group
      selected. */
  method CancelKeepsGroup(g: Group, item: Sound) returns (removed: Option<Target>, stillSelected: Option<Group>)
    ensures removed == Some(SoundTarget(item.id))
    ensures stillSelected == Some(g)
  {
    var screen := new Screen();
    screen.SelectGroup(Some(g));
    screen.CancelSheet();
    screen.SelectSound(item);
    var refetched;
    removed, refetched := screen.DeleteItem(true);
    stillSelected := screen.selectedGroup;
  }
}
