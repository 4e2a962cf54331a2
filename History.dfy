/**
 * The history screen: the reversed session list, a single playback slot
 * shared by clips and speech, single-pin deletion, the selection set and
 * the two-phase bulk deletion.
 */
module History {
  import opened Wrappers
  import opened SessionLog

  /** Which sound of a pin is meant: the recorded clip (`-orig`) or the spoken suggestion (`-tts`). */
  datatype Channel = Orig | Tts

  /** The playback key `${sessionId}-${pinIndex}-orig|tts`, as its three parts. */
  datatype PlayKey = PlayKey(sessionId: string, pinIndex: nat, channel: Channel)

  /** No key occurs twice. */
  predicate NoDup<T(==)>(s: seq<T>)
  {
    forall i, j :: 0 <= i < j < |s| ==> s[i] != s[j]
  }

  /** `Array.prototype.indexOf`: the first position of `k`, or -1. */
  function IndexOf<T(==)>(s: seq<T>, k: T): (r: int)
    ensures -1 <= r < |s|
    ensures r == -1 <==> k !in s
    ensures 0 <= r ==> s[r] == k && forall j :: 0 <= j < r ==> s[j] != k
  {
    if s == [] then -1
    else if s[0] == k then 0
    else
      var r := IndexOf(s[1..], k);
      if r == -1 then -1 else r + 1
  }

  /** The selection after `toggleSelectPin`: a present key is spliced out, an absent one pushed. */
  function Toggled(s: seq<PinKey>, k: PinKey): (r: seq<PinKey>)
    ensures |r| == if k in s then |s| - 1 else |s| + 1
  {
    var i := IndexOf(s, k);
    if i >= 0 then RemoveAt(s, i) else s + [k]
  }

  /** Toggling flips the membership of `k` and of nothing else, and keeps keys distinct. */
  lemma ToggledFlips(s: seq<PinKey>, k: PinKey)
    requires NoDup(s)
    ensures NoDup(Toggled(s, k))
    ensures k in Toggled(s, k) <==> k !in s
    ensures forall x :: x != k ==> (x in Toggled(s, k) <==> x in s)
  {
    var i := IndexOf(s, k);
    if i >= 0 {
      var r := RemoveAt(s, i);
      forall x | x != k ensures x in r <==> x in s {
        if x in s {
          var j :| 0 <= j < |s| && s[j] == x;
          assert j != i;
          if j < i { assert r[j] == x; } else { assert r[j - 1] == x; }
        }
      }
    }
  }

  /** Toggling the same key twice restores the membership of every key. */
  lemma ToggleTwiceRestoresMembership(s: seq<PinKey>, k: PinKey)
    requires NoDup(s)
    ensures forall x :: x in Toggled(Toggled(s, k), k) <==> x in s
  {
    ToggledFlips(s, k);
    ToggledFlips(Toggled(s, k), k);
  }

  /** Selecting an absent key and then deselecting it gives back the very same list. */
  lemma ToggleTwiceAbsent(s: seq<PinKey>, k: PinKey)
    requires k !in s
    ensures Toggled(Toggled(s, k), k) == s
  {
    var t := s + [k];
    assert IndexOf(t, k) == |s| by {
      assert t[|s|] == k;
      assert forall j :: 0 <= j < |s| ==> t[j] != k;
    }
  }

  /** `session.pinned.filter((p) => p !== null)`. */
  function Present(row: seq<Option<Pin>>): (r: seq<Pin>)
    ensures |r| <= |row|
  {
    if row == [] then []
    else Present(row[..|row| - 1]) +
         (if row[|row| - 1].None? then [] else [row[|row| - 1].value])
  }

  /** The marked copy of the list: exactly the positions in `doomed` hold `null`. */
  ghost predicate MarkedBy(slots: seq<seq<Option<Pin>>>, logs: seq<Session>, doomed: set<(nat, nat)>)
  {
    && |slots| == |logs|
    && (forall s :: 0 <= s < |slots| ==> |slots[s]| == |logs[s].pinned|)
    && (forall s, j :: 0 <= s < |slots| && 0 <= j < |slots[s]| ==>
          slots[s][j] == if (s, j) in doomed then None else Some(logs[s].pinned[j]))
  }

  /** Filtering the nulls out of a marked row keeps exactly the unmarked pins. */
  lemma {:induction false} PresentIsWithout(row: seq<Option<Pin>>, pins: seq<Pin>, s: nat, doomed: set<(nat, nat)>)
    requires |row| == |pins|
    requires forall j :: 0 <= j < |row| ==> row[j] == if (s, j) in doomed then None else Some(pins[j])
    ensures Present(row) == Without(pins, s, doomed)
  {
    if row != [] {
      PresentIsWithout(row[..|row| - 1], pins[..|pins| - 1], s, doomed);
    }
  }

  /** What one more selected key adds to the marked positions and to the clip deletions. */
  lemma NextKey(logs: seq<Session>, selected: seq<PinKey>, n: nat)
    requires n < |selected|
    ensures Targets(logs, KeySet(selected[..n + 1])) ==
      Targets(logs, KeySet(selected[..n])) +
      (if Resolve(logs, selected[n]).Some? then {Resolve(logs, selected[n]).value} else {})
    ensures SelectedClips(logs, selected[..n + 1]) ==
      SelectedClips(logs, selected[..n]) + NewClip(logs, Targets(logs, KeySet(selected[..n])), selected[n])
  {
    var prev := selected[..n];
    assert selected[..n + 1][..n] == prev;
    assert selected[..n + 1] == prev + [selected[n]];
    assert KeySet(selected[..n + 1]) == KeySet(prev) + {selected[n]};
    TargetsAdd(logs, KeySet(prev), selected[n]);
  }

  /** Writing `null` at an existing position marks exactly one more position. */
  lemma MarkOne(slots: seq<seq<Option<Pin>>>, logs: seq<Session>, marked: set<(nat, nat)>, pos: (nat, nat))
    requires MarkedBy(slots, logs, marked)
    requires pos.0 < |logs| && pos.1 < |logs[pos.0].pinned|
    ensures MarkedBy(slots[pos.0 := slots[pos.0][pos.1 := None]], logs, marked + {pos})
  {
  }

  /** The `map` pass of `handleDeleteSelected`: each session keeps the non-null entries of its row. */
  function Unmarked(rows: seq<Session>, slots: seq<seq<Option<Pin>>>): (r: seq<Session>)
    requires |slots| == |rows|
    ensures |r| == |rows|
    ensures forall i :: 0 <= i < |rows| ==> r[i].sessionId == rows[i].sessionId && |r[i].pinned| <= |slots[i]|
  {
    seq(|rows|, i requires 0 <= i < |rows| => rows[i].(pinned := Present(slots[i])))
  }

  /** Filtering the nulls out of the marked copy is removing the marked pins. */
  lemma UnmarkedIsPruned(rows: seq<Session>, slots: seq<seq<Option<Pin>>>, doomed: set<(nat, nat)>)
    requires MarkedBy(slots, rows, doomed)
    ensures Unmarked(rows, slots) == Pruned(rows, doomed)
  {
    var r := Unmarked(rows, slots);
    forall i | 0 <= i < |rows|
      ensures r[i] == rows[i].(pinned := Without(rows[i].pinned, i, doomed))
    {
      PresentIsWithout(slots[i], rows[i].pinned, i, doomed);
    }
  }

  /** The copy of the list before any key is processed: every pin present. */
  function AllPresent(logs: seq<Session>): (slots: seq<seq<Option<Pin>>>)
    ensures MarkedBy(slots, logs, {})
  {
    seq(|logs|, s requires 0 <= s < |logs| =>
      seq(|logs[s].pinned|, j requires 0 <= j < |logs[s].pinned| => Some(logs[s].pinned[j])))
  }

  class HistoryScreen {
    /** The on-screen list, newest session first. */
    var logs: seq<Session>
    var playingKey: Option<PlayKey>
    /** Whether `Speech` is speaking a suggestion; only the speech callbacks and `Speech.stop()` change it. */
    var speaking: bool
    var isSelecting: bool
    /** The selection, as keys `${sessionId}_${pinIndex}` in the order they were picked. */
    var selectedPins: seq<PinKey>
    const store: SessionLogStore
    const clips: ClipStore

    ghost predicate Valid()
      reads this
    {
      NoDup(selectedPins)
    }

    /**
     * Mounting the screen runs `loadLogs`: the stored list, newest first.
     * `loaded` is false when `getItem` rejects; nothing catches that, and
     * the list keeps its initial empty value.
     */
    constructor (store: SessionLogStore, clips: ClipStore, loaded: bool)
      ensures Valid()
      ensures loaded ==> logs == Reverse(store.sessions) && Reverse(logs) == store.sessions
      ensures !loaded ==> logs == []
      ensures playingKey == None && !speaking && !isSelecting && selectedPins == []
      ensures this.store == store && this.clips == clips
    {
      logs := if loaded then Reverse(store.sessions) else [];
      playingKey := None;
      speaking := false;
      isSelecting := false;
      selectedPins := [];
      this.store := store;
      this.clips := clips;
      ReverseReverse(store.sessions);
    }

    /** `stopCurrentClip`: the slot is emptied; speech is not stopped. */
    method StopCurrentClip()
      modifies this
      ensures playingKey == None
      ensures logs == old(logs) && isSelecting == old(isSelecting) && selectedPins == old(selectedPins)
      ensures speaking == old(speaking)
    {
      playingKey := None;
    }

    /**
     * `handlePlayClip(pin, sessionId, pinIndex)`: no clip, or any other key
     * in the slot, leaves everything as it was; the same key stops the clip;
     * otherwise the clip starts (`loaded` false: it could not be played).
     */
    method HandlePlayClip(pin: Pin, sessionId: string, pinIndex: nat, loaded: bool)
      modifies this
      ensures var key := PlayKey(sessionId, pinIndex, Orig);
        && (ClipOf(pin).None? ==> unchanged(this))
        && (old(playingKey).Some? && old(playingKey) != Some(key) ==> unchanged(this))
        && (ClipOf(pin).Some? && old(playingKey) == Some(key) ==> playingKey == None)
        && (ClipOf(pin).Some? && old(playingKey).None? ==> playingKey == if loaded then Some(key) else None)
      ensures logs == old(logs) && isSelecting == old(isSelecting) && selectedPins == old(selectedPins)
      ensures speaking == old(speaking)
    {
      var key := PlayKey(sessionId, pinIndex, Orig);
      if ClipOf(pin).None? {
        return;
      }
      if playingKey.Some? && playingKey != Some(key) {
        return;
      }
      if playingKey == Some(key) {
        StopCurrentClip();
        return;
      }
      if loaded {
        playingKey := Some(key);
      } else {
        playingKey := None;
      }
    }

    /**
     * `handlePlayTTS(pin, sessionId, pinIndex)`: no suggestion, or any other
     * key in the slot (the clip of the same pin included), leaves everything
     * as it was; the same key stops the speech; otherwise it starts.
     */
    method HandlePlayTts(pin: Pin, sessionId: string, pinIndex: nat)
      modifies this
      ensures var key := PlayKey(sessionId, pinIndex, Tts);
        && (pin.analysis.None? || pin.analysis.value.suggestion == [] ==> unchanged(this))
        && (old(playingKey).Some? && old(playingKey) != Some(key) ==> unchanged(this))
        && (pin.analysis.Some? && pin.analysis.value.suggestion != [] && old(playingKey) == Some(key) ==>
              playingKey == None && !speaking)
        && (pin.analysis.Some? && pin.analysis.value.suggestion != [] && old(playingKey).None? ==>
              playingKey == Some(key) && speaking)
      ensures logs == old(logs) && isSelecting == old(isSelecting) && selectedPins == old(selectedPins)
    {
      var key := PlayKey(sessionId, pinIndex, Tts);
      if pin.analysis.None? || pin.analysis.value.suggestion == [] {
        return;
      }
      if playingKey.Some? && playingKey != Some(key) {
        return;
      }
      // The slot is empty or holds this speech key, so the branch that would
      // stop a playing clip first can never be taken.
      assert !(playingKey.Some? && playingKey.value.channel == Orig);
      if playingKey == Some(key) {
        speaking := false;
        playingKey := None;
        return;
      }
      playingKey := Some(key);
      speaking := true;
    }

    /** The playing clip finished (`didJustFinish`): the slot is emptied. */
    method OnClipFinished()
      modifies this
      ensures playingKey == None
      ensures logs == old(logs) && isSelecting == old(isSelecting) && selectedPins == old(selectedPins)
      ensures speaking == old(speaking)
    {
      playingKey := None;
    }

    /**
     * Speech ended, was stopped or failed (`onDone`, `onStopped`, `onError`):
     * the slot is emptied, whatever it holds by then.
     */
    method OnSpeechEnded()
      modifies this
      ensures playingKey == None && !speaking
      ensures logs == old(logs) && isSelecting == old(isSelecting) && selectedPins == old(selectedPins)
    {
      speaking := false;
      playingKey := None;
    }

    /**
     * `handleDeletePin(sessionId, pinIndex)`: playback stops first; an
     * unknown session or index then returns before any file or storage
     * work; otherwise the pin's clip is deleted, the pin is spliced out (and
     * its session when it was the last), and the list is stored reversed.
     */
    method HandleDeletePin(sessionId: string, pinIndex: nat)
      modifies this, store, clips
      ensures playingKey == None
      ensures logs == DeletePin(old(logs), sessionId, pinIndex)
      ensures clips.deleted == old(clips.deleted) + DeletePinClips(old(logs), sessionId, pinIndex)
      ensures Resolve(old(logs), PinKey(sessionId, pinIndex)).None? ==> unchanged(store) && unchanged(clips)
      ensures Resolve(old(logs), PinKey(sessionId, pinIndex)).Some? ==> store.sessions == Reverse(logs)
      ensures AllNonEmpty(old(logs)) ==> AllNonEmpty(logs)
      ensures isSelecting == old(isSelecting) && selectedPins == old(selectedPins) && speaking == old(speaking)
    {
      if AllNonEmpty(logs) {
        DeletePinKeepsSessionsNonEmpty(logs, sessionId, pinIndex);
      }
      StopCurrentClip();
      var newLogs := logs;
      var found := FindSession(newLogs, sessionId);
      if found.None? {
        return;
      }
      var s := found.value;
      if pinIndex >= |newLogs[s].pinned| {
        return;
      }
      var target := newLogs[s].pinned[pinIndex];
      if ClipOf(target).Some? {
        clips.DeleteAsync(ClipOf(target).value);
      }
      var pins := RemoveAt(newLogs[s].pinned, pinIndex);
      newLogs := newLogs[s := newLogs[s].(pinned := pins)];
      if |pins| == 0 {
        newLogs := RemoveAt(newLogs, s);
      }
      store.WriteDisplayed(newLogs);
      logs := newLogs;
    }

    /** `toggleSelecting`: leaving select mode clears the selection. */
    method ToggleSelecting()
      requires Valid()
      modifies this
      ensures Valid()
      ensures isSelecting == !old(isSelecting)
      ensures old(isSelecting) ==> selectedPins == []
      ensures !old(isSelecting) ==> selectedPins == old(selectedPins)
      ensures logs == old(logs) && playingKey == old(playingKey) && speaking == old(speaking)
    {
      if isSelecting {
        selectedPins := [];
      }
      isSelecting := !isSelecting;
    }

    /** `toggleSelectPin(sessionId, pinIndex)`: the key's membership flips, nothing else changes. */
    method ToggleSelectPin(sessionId: string, pinIndex: nat)
      requires Valid()
      modifies this
      ensures Valid()
      ensures selectedPins == Toggled(old(selectedPins), PinKey(sessionId, pinIndex))
      ensures IsPinSelected(sessionId, pinIndex) <==> !old(PinKey(sessionId, pinIndex) in selectedPins)
      ensures forall x :: x != PinKey(sessionId, pinIndex) ==> (x in selectedPins <==> x in old(selectedPins))
      ensures logs == old(logs) && playingKey == old(playingKey) && isSelecting == old(isSelecting)
      ensures speaking == old(speaking)
    {
      var key := PinKey(sessionId, pinIndex);
      var before := selectedPins;
      ToggledFlips(before, key);
      selectedPins := Toggled(before, key);
    }

    /** `isPinSelected`: whether the key is in the selection a bulk delete would use. */
    function IsPinSelected(sessionId: string, pinIndex: nat): (r: bool)
      reads this
      ensures r <==> PinKey(sessionId, pinIndex) in KeySet(selectedPins)
    {
      PinKey(sessionId, pinIndex) in selectedPins
    }

    /**
     * `handleDeleteSelected`. With nothing selected nothing happens.
     * Otherwise playback stops; each selected key that reaches a pin not yet
     * marked has its clip deleted and its slot set to `null`, by index in the
     * unmodified list; then nulls are filtered out of every session, empty
     * sessions are dropped, the list is stored reversed and select mode ends.
     */
    method HandleDeleteSelected()
      requires Valid()
      modifies this, store, clips
      ensures Valid()
      ensures old(selectedPins) == [] ==> unchanged(this) && unchanged(store) && unchanged(clips)
      ensures old(selectedPins) != [] ==>
        && logs == DeleteSelected(old(logs), KeySet(old(selectedPins)))
        && store.sessions == Reverse(logs)
        && clips.deleted == old(clips.deleted) + SelectedClips(old(logs), old(selectedPins))
        && playingKey == None && selectedPins == [] && !isSelecting && speaking == old(speaking)
    {
      if |selectedPins| == 0 {
        return;
      }
      var rows, keys := logs, selectedPins;
      StopCurrentClip();
      var newLogs := BulkDelete(rows, keys, clips);
      store.WriteDisplayed(newLogs);
      logs := newLogs;
      selectedPins := [];
      isSelecting := false;
    }
  }

  /**
   * Deleting a pin stops the clip slot but not speech: speak pin 0's
   * suggestion, delete pin 1, and pin 0's clip then starts while the speech
   * still plays.
   */
  method SpeechOutlivesDelete(a: Analysis) returns (key: Option<PlayKey>, stillSpeaking: bool)
    requires a.clipUri != [] && a.suggestion != []
    ensures key == Some(PlayKey("1", 0, Orig)) && stillSpeaking
  {
    var pin := Pin(20, Some(a));
    var store := new SessionLogStore([Session("1", "", "", [pin, pin])]);
    var clips := new ClipStore();
    var screen := new HistoryScreen(store, clips, true);
    screen.HandlePlayTts(pin, "1", 0);
    screen.HandleDeletePin("1", 1);
    screen.HandlePlayClip(pin, "1", 0, true);
    key, stillSpeaking := screen.playingKey, screen.speaking;
  }

  /**
   * The pure part of `handleDeleteSelected`: mark the selected pins in a
   * copy of the list, drop the marks, then drop the sessions left empty.
   */
  method BulkDelete(rows: seq<Session>, keys: seq<PinKey>, clips: ClipStore) returns (newLogs: seq<Session>)
    modifies clips
    ensures newLogs == DeleteSelected(rows, KeySet(keys))
    ensures clips.deleted == old(clips.deleted) + SelectedClips(rows, keys)
  {
    var slots := MarkSelected(rows, keys, clips);
    UnmarkedIsPruned(rows, slots, Targets(rows, KeySet(keys)));
    newLogs := DropEmpty(Unmarked(rows, slots));
  }

  /**
   * The marking loop of `handleDeleteSelected`: a copy of every session's
   * pins in which each selected pin that exists becomes `null`, its clip
   * deleted the first time it is reached.
   */
  method MarkSelected(logs: seq<Session>, selected: seq<PinKey>, clips: ClipStore)
    returns (slots: seq<seq<Option<Pin>>>)
    modifies clips
    ensures MarkedBy(slots, logs, Targets(logs, KeySet(selected)))
    ensures clips.deleted == old(clips.deleted) + SelectedClips(logs, selected)
  {
    slots := AllPresent(logs);
    ghost var marked: set<(nat, nat)> := {};
    assert Targets(logs, KeySet(selected[..0])) == marked;
    for n := 0 to |selected|
      invariant marked == Targets(logs, KeySet(selected[..n]))
      invariant MarkedBy(slots, logs, marked)
      invariant clips.deleted == old(clips.deleted) + SelectedClips(logs, selected[..n])
    {
      var k := selected[n];
      NextKey(logs, selected, n);
      slots := MarkKey(logs, slots, k, clips, marked);
      assert clips.deleted == old(clips.deleted) + (SelectedClips(logs, selected[..n]) + NewClip(logs, marked, k));
      marked := marked + if Resolve(logs, k).Some? then {Resolve(logs, k).value} else {};
    }
    assert selected[..|selected|] == selected;
  }

  /**
   * One pass of the marking loop for key `k`: a key that names no pin, or a
   * pin already marked, is skipped; otherwise the pin's clip is deleted and
   * its slot becomes `null`.
   */
  method MarkKey(logs: seq<Session>, slots: seq<seq<Option<Pin>>>, k: PinKey, clips: ClipStore,
                 ghost marked: set<(nat, nat)>)
    returns (next: seq<seq<Option<Pin>>>)
    requires MarkedBy(slots, logs, marked)
    modifies clips
    ensures MarkedBy(next, logs, marked + if Resolve(logs, k).Some? then {Resolve(logs, k).value} else {})
    ensures clips.deleted == old(clips.deleted) + NewClip(logs, marked, k)
  {
    next := slots;
    // Marking never changes a session id, so the lookup may use `logs`.
    var found := FindSession(logs, k.sessionId);
    if found.None? || k.pinIndex >= |slots[found.value]| {
      return;
    }
    var s := found.value;
    var item := slots[s][k.pinIndex];
    if item.None? {
      assert (s, k.pinIndex) in marked;
      assert marked + {(s, k.pinIndex)} == marked;
      return;
    }
    var clip := ClipOf(item.value);
    if clip.Some? {
      clips.DeleteAsync(clip.value);
    }
    MarkOne(slots, logs, marked, (s, k.pinIndex));
    next := slots[s := slots[s][k.pinIndex := None]];
  }
}
