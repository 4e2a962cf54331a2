/**
 * Sessions, pins and analyses as they are persisted under `SESSION_LOGS`,
 * the two stores the screens write to (the session log and the clip
 * files), and the pure meaning of the two history delete paths.
 */
module SessionLog {
  import opened Wrappers

  /** What the analysis produced for one pin. */
  datatype Analysis = Analysis(original: string, suggestion: string, clipUri: string)

  /** A pin: whole seconds from the start of the recording, and its analysis once there is one. */
  datatype Pin = Pin(pinTime: int, analysis: Option<Analysis>)

  /** One saved recording. `sessionId` is the decimal text of a clock reading, so it holds digits only. */
  datatype Session = Session(sessionId: string, date: string, filePath: string, pinned: seq<Pin>)

  /** A selection key `${sessionId}_${pinIndex}`; digits-only ids make the text form injective. */
  datatype PinKey = PinKey(sessionId: string, pinIndex: nat)

  /** `[...s].reverse()`. */
  function Reverse<T>(s: seq<T>): (r: seq<T>)
    ensures |r| == |s|
    ensures forall i :: 0 <= i < |s| ==> r[i] == s[|s| - 1 - i]
  {
    if s == [] then [] else Reverse(s[1..]) + [s[0]]
  }

  /** Reversing twice gives the list back: the history list survives a write and a reload. */
  lemma ReverseReverse<T>(s: seq<T>)
    ensures Reverse(Reverse(s)) == s
  {
  }

  /** `s.splice(i, 1)` on a copy: the element at `i` is gone, the rest keep their order. */
  function RemoveAt<T>(s: seq<T>, i: nat): (r: seq<T>)
    requires i < |s|
    ensures |r| == |s| - 1
    ensures forall j :: 0 <= j < i ==> r[j] == s[j]
    ensures forall j :: i <= j < |r| ==> r[j] == s[j + 1]
  {
    s[..i] + s[i + 1..]
  }

  /** `logs.findIndex(s => s.sessionId === sid)`: the first session with that id. */
  function FindSession(logs: seq<Session>, sid: string): (r: Option<nat>)
    ensures r.Some? ==> r.value < |logs| && logs[r.value].sessionId == sid
    ensures r.Some? ==> forall j :: 0 <= j < r.value ==> logs[j].sessionId != sid
    ensures r.None? ==> forall j :: 0 <= j < |logs| ==> logs[j].sessionId != sid
  {
    FindSessionFrom(logs, sid, 0)
  }

  function FindSessionFrom(logs: seq<Session>, sid: string, from: nat): (r: Option<nat>)
    requires from <= |logs|
    requires forall j :: 0 <= j < from ==> logs[j].sessionId != sid
    ensures r.Some? ==> from <= r.value < |logs| && logs[r.value].sessionId == sid
    ensures r.Some? ==> forall j :: 0 <= j < r.value ==> logs[j].sessionId != sid
    ensures r.None? ==> forall j :: 0 <= j < |logs| ==> logs[j].sessionId != sid
    decreases |logs| - from
  {
    if from == |logs| then None
    else if logs[from].sessionId == sid then Some(from)
    else FindSessionFrom(logs, sid, from + 1)
  }

  /** A stored session always has a pin: both delete paths drop a session with its last pin. */
  predicate AllNonEmpty(logs: seq<Session>)
  {
    forall i :: 0 <= i < |logs| ==> logs[i].pinned != []
  }

  /** The clip file a pin owns, when its analysis names one (`pin.analysis?.clipUri` is truthy). */
  function ClipOf(pin: Pin): Option<string>
  {
    if pin.analysis.Some? && pin.analysis.value.clipUri != [] then Some(pin.analysis.value.clipUri) else None
  }

  /**
   * The list after `handleDeletePin(sid, pinIndex)`: the pin goes, and its
   * session goes with it when that was its last pin. A missing session or
   * index leaves the list as it was.
   */
  function DeletePin(logs: seq<Session>, sid: string, pinIndex: nat): (r: seq<Session>)
    ensures FindSession(logs, sid).None? ==> r == logs
    ensures FindSession(logs, sid).Some? && pinIndex >= |logs[FindSession(logs, sid).value].pinned| ==> r == logs
    ensures FindSession(logs, sid).Some? && pinIndex < |logs[FindSession(logs, sid).value].pinned| ==>
      var s := FindSession(logs, sid).value;
      var pins := logs[s].pinned;
      && (|pins| == 1 ==> r == logs[..s] + logs[s + 1..])
      && (|pins| > 1 ==> |r| == |logs| && r[s] == logs[s].(pinned := RemoveAt(pins, pinIndex))
                         && forall j :: 0 <= j < |logs| && j != s ==> r[j] == logs[j])
  {
    match FindSession(logs, sid)
    case None => logs
    case Some(s) =>
      if pinIndex >= |logs[s].pinned| then logs
      else
        var pins := RemoveAt(logs[s].pinned, pinIndex);
        if pins == [] then RemoveAt(logs, s) else logs[s := logs[s].(pinned := pins)]
  }

  /** Deleting one pin keeps every remaining session non-empty. */
  lemma DeletePinKeepsSessionsNonEmpty(logs: seq<Session>, sid: string, pinIndex: nat)
    requires AllNonEmpty(logs)
    ensures AllNonEmpty(DeletePin(logs, sid, pinIndex))
  {
  }

  /** Where a selection key points in `logs`, if anywhere: (session position, pin index). */
  function Resolve(logs: seq<Session>, k: PinKey): (r: Option<(nat, nat)>)
    ensures r.Some? ==> r.value.0 < |logs| && r.value.1 < |logs[r.value.0].pinned|
    ensures r.Some? <==> FindSession(logs, k.sessionId).Some? &&
                         k.pinIndex < |logs[FindSession(logs, k.sessionId).value].pinned|
    ensures r.Some? ==> r.value == (FindSession(logs, k.sessionId).value, k.pinIndex)
  {
    match FindSession(logs, k.sessionId)
    case None => None
    case Some(s) => if k.pinIndex < |logs[s].pinned| then Some((s, k.pinIndex)) else None
  }

  /** The positions a set of selection keys marks for removal; keys that point nowhere are skipped. */
  function Targets(logs: seq<Session>, keys: set<PinKey>): set<(nat, nat)>
  {
    set k | k in keys && Resolve(logs, k).Some? :: Resolve(logs, k).value
  }

  lemma TargetsAdd(logs: seq<Session>, keys: set<PinKey>, k: PinKey)
    ensures Targets(logs, keys + {k}) ==
      Targets(logs, keys) + (if Resolve(logs, k).Some? then {Resolve(logs, k).value} else {})
  {
  }

  /** The indices below `n` of the session at position `row` that `doomed` does not mark, in ascending order. */
  function Kept(n: nat, row: nat, doomed: set<(nat, nat)>): (r: seq<nat>)
    ensures forall m :: 0 <= m < |r| ==> r[m] < n
    ensures forall j :: 0 <= j < n ==> (j in r <==> (row, j) !in doomed)
    ensures forall a, b :: 0 <= a < b < |r| ==> r[a] < r[b]
  {
    if n == 0 then [] else Kept(n - 1, row, doomed) + (if (row, n - 1) in doomed then [] else [n - 1])
  }

  /** The pins of the session at position `row` whose index is not marked in `doomed`. */
  function Without(pins: seq<Pin>, row: nat, doomed: set<(nat, nat)>): (r: seq<Pin>)
    ensures |r| <= |pins|
    ensures forall p :: p in r ==> p in pins
  {
    if pins == [] then []
    else Without(pins[..|pins| - 1], row, doomed) +
         (if (row, |pins| - 1) in doomed then [] else [pins[|pins| - 1]])
  }

  /**
   * `Without` keeps exactly the unmarked pins, in their order: position `m`
   * of the result is the pin at the `m`-th unmarked index.
   */
  lemma {:induction false} WithoutIsKept(pins: seq<Pin>, row: nat, doomed: set<(nat, nat)>)
    ensures var k := Kept(|pins|, row, doomed);
      && |Without(pins, row, doomed)| == |k|
      && forall m :: 0 <= m < |k| ==> Without(pins, row, doomed)[m] == pins[k[m]]
  {
    if pins != [] {
      var n := |pins|;
      WithoutIsKept(pins[..n - 1], row, doomed);
    }
  }

  /** With nothing in the row marked, every pin stays. */
  lemma {:induction false} WithoutNothing(pins: seq<Pin>, row: nat, doomed: set<(nat, nat)>)
    requires forall j :: 0 <= j < |pins| ==> (row, j) !in doomed
    ensures Without(pins, row, doomed) == pins
  {
    if pins != [] {
      WithoutNothing(pins[..|pins| - 1], row, doomed);
    }
  }

  /** With exactly index `i` of the row marked, the result is the single splice. */
  lemma {:induction false} WithoutOne(pins: seq<Pin>, row: nat, doomed: set<(nat, nat)>, i: nat)
    requires i < |pins|
    requires forall j :: 0 <= j < |pins| ==> ((row, j) in doomed <==> j == i)
    ensures Without(pins, row, doomed) == RemoveAt(pins, i)
  {
    var n := |pins|;
    if i == n - 1 {
      WithoutNothing(pins[..n - 1], row, doomed);
      assert RemoveAt(pins, i) == pins[..n - 1];
    } else {
      WithoutOne(pins[..n - 1], row, doomed, i);
      assert RemoveAt(pins, i) == RemoveAt(pins[..n - 1], i) + [pins[n - 1]];
    }
  }

  /**
   * With exactly indices `i < k` of the row marked, the result is splicing
   * out `k` and then `i`: marking by original index is immune to index shifts.
   */
  lemma {:induction false} WithoutTwo(pins: seq<Pin>, row: nat, doomed: set<(nat, nat)>, i: nat, k: nat)
    requires i < k < |pins|
    requires forall j :: 0 <= j < |pins| ==> ((row, j) in doomed <==> j == i || j == k)
    ensures Without(pins, row, doomed) == RemoveAt(RemoveAt(pins, k), i)
  {
    var n := |pins|;
    if k == n - 1 {
      WithoutOne(pins[..n - 1], row, doomed, i);
      assert RemoveAt(pins, k) == pins[..n - 1];
    } else {
      WithoutTwo(pins[..n - 1], row, doomed, i, k);
      assert RemoveAt(pins, k) == RemoveAt(pins[..n - 1], k) + [pins[n - 1]];
      assert RemoveAt(RemoveAt(pins, k), i) == RemoveAt(RemoveAt(pins[..n - 1], k), i) + [pins[n - 1]];
    }
  }

  /** The `null` pass: the marked pins of every session are filtered out. */
  function Pruned(logs: seq<Session>, doomed: set<(nat, nat)>): (r: seq<Session>)
    ensures |r| == |logs|
    ensures forall i :: 0 <= i < |logs| ==> r[i] == logs[i].(pinned := Without(logs[i].pinned, i, doomed))
  {
    seq(|logs|, i requires 0 <= i < |logs| => logs[i].(pinned := Without(logs[i].pinned, i, doomed)))
  }

  /** `logs.filter(s => s.pinned.length > 0)`. */
  function DropEmpty(logs: seq<Session>): (r: seq<Session>)
    ensures AllNonEmpty(r)
    ensures |r| <= |logs|
  {
    if logs == [] then []
    else DropEmpty(logs[..|logs| - 1]) +
         (if logs[|logs| - 1].pinned == [] then [] else [logs[|logs| - 1]])
  }

  /** The filter keeps exactly the sessions that have a pin. */
  lemma {:induction false} DropEmptyMembers(logs: seq<Session>)
    ensures forall x :: x in DropEmpty(logs) <==> x in logs && x.pinned != []
  {
    if logs != [] {
      var n := |logs|;
      DropEmptyMembers(logs[..n - 1]);
      assert logs == logs[..n - 1] + [logs[n - 1]];
    }
  }

  /** The filter keeps a single session exactly when it has a pin. */
  lemma DropEmptySingle(x: Session)
    ensures DropEmpty([x]) == if x.pinned == [] then [] else [x]
  {
    assert [x][..0] == [];
  }

  /** The filter works session by session, so the sessions it keeps stay in their order. */
  lemma {:induction false} DropEmptyAppend(a: seq<Session>, b: seq<Session>)
    ensures DropEmpty(a + b) == DropEmpty(a) + DropEmpty(b)
    decreases |b|
  {
    if b == [] {
      assert a + b == a;
    } else {
      var n := |b|;
      assert (a + b)[..|a + b| - 1] == a + b[..n - 1];
      assert (a + b)[|a + b| - 1] == b[n - 1];
      DropEmptyAppend(a, b[..n - 1]);
    }
  }

  lemma {:induction false} DropEmptyKeepsNonEmpty(logs: seq<Session>)
    requires AllNonEmpty(logs)
    ensures DropEmpty(logs) == logs
  {
    if logs != [] {
      DropEmptyKeepsNonEmpty(logs[..|logs| - 1]);
    }
  }

  /** When only the session at `s` is empty, the filter removes exactly that one. */
  lemma {:induction false} DropEmptyOne(logs: seq<Session>, s: nat)
    requires s < |logs| && logs[s].pinned == []
    requires forall j :: 0 <= j < |logs| && j != s ==> logs[j].pinned != []
    ensures DropEmpty(logs) == RemoveAt(logs, s)
  {
    var n := |logs|;
    var init := logs[..n - 1];
    assert logs == init + [logs[n - 1]];
    if s == n - 1 {
      DropEmptyKeepsNonEmpty(init);
      assert RemoveAt(logs, s) == init;
    } else {
      DropEmptyOne(init, s);
      assert DropEmpty(logs) == DropEmpty(init) + [logs[n - 1]];
      assert RemoveAt(logs, s) == RemoveAt(init, s) + [logs[n - 1]];
    }
  }

  /**
   * The list after `handleDeleteSelected` with the selection `keys`: every
   * selected pin that exists is removed (by its index before any removal),
   * then every session left without pins.
   */
  function DeleteSelected(logs: seq<Session>, keys: set<PinKey>): (r: seq<Session>)
    ensures AllNonEmpty(r)
    ensures |r| <= |logs|
  {
    DropEmpty(Pruned(logs, Targets(logs, keys)))
  }

  /**
   * The positions the bulk delete marks are exactly the pins whose key
   * `${sessionId}_${index}` is selected, in the first session with that id.
   */
  lemma TargetsExact(logs: seq<Session>, keys: set<PinKey>, i: nat, j: nat)
    requires i < |logs|
    ensures (i, j) in Targets(logs, keys) <==>
      && j < |logs[i].pinned|
      && FindSession(logs, logs[i].sessionId) == Some(i)
      && PinKey(logs[i].sessionId, j) in keys
  {
    var k := PinKey(logs[i].sessionId, j);
    if (i, j) in Targets(logs, keys) {
      var k' :| k' in keys && Resolve(logs, k').Some? && Resolve(logs, k').value == (i, j);
      assert k' == k;
    }
    if j < |logs[i].pinned| && FindSession(logs, logs[i].sessionId) == Some(i) && k in keys {
      assert Resolve(logs, k) == Some((i, j));
    }
  }

  /** Keys that name no existing pin are skipped: the list is unchanged. */
  lemma SelectionOfNothing(logs: seq<Session>, keys: set<PinKey>)
    requires AllNonEmpty(logs)
    requires forall k :: k in keys ==> Resolve(logs, k).None?
    ensures DeleteSelected(logs, keys) == logs
  {
    var p := Pruned(logs, Targets(logs, keys));
    forall i | 0 <= i < |logs| ensures p[i] == logs[i] {
      WithoutNothing(logs[i].pinned, i, Targets(logs, keys));
    }
    DropEmptyKeepsNonEmpty(p);
  }

  /** Marking positions of one session only changes that session's pins. */
  lemma PrunedOneRow(logs: seq<Session>, doomed: set<(nat, nat)>, s: nat, pins: seq<Pin>)
    requires s < |logs|
    requires forall pos :: pos in doomed ==> pos.0 == s
    requires Without(logs[s].pinned, s, doomed) == pins
    ensures Pruned(logs, doomed) == logs[s := logs[s].(pinned := pins)]
  {
    var p := Pruned(logs, doomed);
    forall j | 0 <= j < |logs| && j != s ensures p[j] == logs[j] {
      WithoutNothing(logs[j].pinned, j, doomed);
    }
  }

  /** Replacing one session's pins by `pins` and dropping empty sessions, for an all-non-empty list. */
  lemma ReplaceThenDrop(logs: seq<Session>, s: nat, pins: seq<Pin>)
    requires AllNonEmpty(logs) && s < |logs|
    ensures pins == [] ==> DropEmpty(logs[s := logs[s].(pinned := pins)]) == logs[..s] + logs[s + 1..]
    ensures pins != [] ==> DropEmpty(logs[s := logs[s].(pinned := pins)]) == logs[s := logs[s].(pinned := pins)]
  {
    var q := logs[s := logs[s].(pinned := pins)];
    if pins == [] {
      DropEmptyOne(q, s);
      assert RemoveAt(q, s) == logs[..s] + logs[s + 1..];
    } else {
      DropEmptyKeepsNonEmpty(q);
    }
  }

  /** Bulk delete of one selected key is the single-pin delete of that key. */
  lemma SelectionOfOne(logs: seq<Session>, k: PinKey)
    requires AllNonEmpty(logs)
    ensures DeleteSelected(logs, {k}) == DeletePin(logs, k.sessionId, k.pinIndex)
  {
    var r := Resolve(logs, k);
    if r.None? {
      SelectionOfNothing(logs, {k});
    } else {
      var s, i := r.value.0, r.value.1;
      var doomed := Targets(logs, {k});
      assert doomed == {(s, i)};
      WithoutOne(logs[s].pinned, s, doomed, i);
      PrunedOneRow(logs, doomed, s, RemoveAt(logs[s].pinned, i));
      ReplaceThenDrop(logs, s, RemoveAt(logs[s].pinned, i));
    }
  }

  /** The list with the pins of session `s` replaced, and that session dropped if none remain. */
  function ReplacePins(logs: seq<Session>, s: nat, pins: seq<Pin>): seq<Session>
    requires s < |logs|
  {
    if pins == [] then logs[..s] + logs[s + 1..] else logs[s := logs[s].(pinned := pins)]
  }

  /**
   * Bulk delete of two pins of one session, named by their original indices
   * `i < k`, is deleting pin `k` and then pin `i` one at a time.
   */
  lemma SelectionOfTwo(logs: seq<Session>, sid: string, i: nat, k: nat)
    requires AllNonEmpty(logs)
    requires FindSession(logs, sid).Some?
    requires i < k < |logs[FindSession(logs, sid).value].pinned|
    ensures DeleteSelected(logs, {PinKey(sid, i), PinKey(sid, k)}) ==
            DeletePin(DeletePin(logs, sid, k), sid, i)
  {
    BulkTwoReplaces(logs, sid, i, k);
    DeleteTwice(logs, sid, i, k);
  }

  /** The two keys mark exactly their two positions in the session they name. */
  lemma TwoTargets(logs: seq<Session>, sid: string, i: nat, k: nat)
    requires FindSession(logs, sid).Some?
    requires i < k < |logs[FindSession(logs, sid).value].pinned|
    ensures var s := FindSession(logs, sid).value;
      Targets(logs, {PinKey(sid, i), PinKey(sid, k)}) == {(s, i), (s, k)}
  {
    assert {PinKey(sid, i), PinKey(sid, k)} == {PinKey(sid, i)} + {PinKey(sid, k)};
    TargetsAdd(logs, {PinKey(sid, i)}, PinKey(sid, k));
  }

  /** Bulk delete of two pins of one session replaces that session's pins by the two splices. */
  lemma BulkTwoReplaces(logs: seq<Session>, sid: string, i: nat, k: nat)
    requires AllNonEmpty(logs)
    requires FindSession(logs, sid).Some?
    requires i < k < |logs[FindSession(logs, sid).value].pinned|
    ensures var s := FindSession(logs, sid).value;
      DeleteSelected(logs, {PinKey(sid, i), PinKey(sid, k)}) ==
      ReplacePins(logs, s, RemoveAt(RemoveAt(logs[s].pinned, k), i))
  {
    var s := FindSession(logs, sid).value;
    var left := RemoveAt(RemoveAt(logs[s].pinned, k), i);
    var doomed := Targets(logs, {PinKey(sid, i), PinKey(sid, k)});
    TwoTargets(logs, sid, i, k);
    WithoutTwo(logs[s].pinned, s, doomed, i, k);
    PrunedOneRow(logs, doomed, s, left);
    ReplaceThenDrop(logs, s, left);
  }

  /** One-at-a-time deletion of pin `k`, then pin `i < k`, of the same session. */
  lemma DeleteTwice(logs: seq<Session>, sid: string, i: nat, k: nat)
    requires FindSession(logs, sid).Some?
    requires i < k < |logs[FindSession(logs, sid).value].pinned|
    ensures var s := FindSession(logs, sid).value;
      DeletePin(DeletePin(logs, sid, k), sid, i) ==
      ReplacePins(logs, s, RemoveAt(RemoveAt(logs[s].pinned, k), i))
  {
    var s := FindSession(logs, sid).value;
    var pins := logs[s].pinned;
    var once := logs[s := logs[s].(pinned := RemoveAt(pins, k))];
    assert DeletePin(logs, sid, k) == once;
    SameIdsSameFind(logs, once, sid);
    assert once[s := once[s].(pinned := RemoveAt(RemoveAt(pins, k), i))]
        == logs[s := logs[s].(pinned := RemoveAt(RemoveAt(pins, k), i))];
    assert once[..s] + once[s + 1..] == logs[..s] + logs[s + 1..];
  }

  /** `findIndex` looks at ids only. */
  lemma SameIdsSameFind(a: seq<Session>, b: seq<Session>, sid: string)
    requires |a| == |b|
    requires forall j :: 0 <= j < |a| ==> a[j].sessionId == b[j].sessionId
    ensures FindSession(a, sid) == FindSession(b, sid)
  {
  }

  /** The selection is a list, but only its set of keys matters, not their order or repeats. */
  function KeySet(selected: seq<PinKey>): set<PinKey>
  {
    set k | k in selected
  }

  /**
   * `DeleteSelected` reads a set, so this is immediate; what carries the
   * point is `History.HistoryScreen.HandleDeleteSelected`, whose result is
   * stated through `KeySet` of the selection list.
   */
  lemma SelectionOrderIrrelevant(logs: seq<Session>, a: seq<PinKey>, b: seq<PinKey>)
    requires multiset(a) == multiset(b)
    ensures DeleteSelected(logs, KeySet(a)) == DeleteSelected(logs, KeySet(b))
  {
    assert forall k :: k in a <==> k in multiset(a);
    assert KeySet(a) == KeySet(b);
  }

  /** Clip files that `handleDeletePin` asks to delete: the target pin's clip, when it has one. */
  function DeletePinClips(logs: seq<Session>, sid: string, pinIndex: nat): seq<string>
  {
    match Resolve(logs, PinKey(sid, pinIndex))
    case None => []
    case Some(pos) =>
      var c := ClipOf(logs[pos.0].pinned[pos.1]);
      if c.Some? then [c.value] else []
  }

  /**
   * Clip files that the marking loop of `handleDeleteSelected` asks to
   * delete, in order: one per key that reaches a pin not yet marked.
   */
  function SelectedClips(logs: seq<Session>, selected: seq<PinKey>): seq<string>
  {
    if selected == [] then []
    else
      var prev := selected[..|selected| - 1];
      var k := selected[|selected| - 1];
      SelectedClips(logs, prev) + NewClip(logs, Targets(logs, KeySet(prev)), k)
  }

  /** The clip that key `k` asks to delete when the positions in `marked` are already gone. */
  function NewClip(logs: seq<Session>, marked: set<(nat, nat)>, k: PinKey): seq<string>
  {
    match Resolve(logs, k)
    case None => []
    case Some(pos) =>
      var c := ClipOf(logs[pos.0].pinned[pos.1]);
      if pos in marked || c.None? then [] else [c.value]
  }

  /** Every requested clip deletion belongs to a pin that the bulk delete removes. */
  lemma {:induction false} SelectedClipsAreTargets(logs: seq<Session>, selected: seq<PinKey>)
    ensures forall c :: c in SelectedClips(logs, selected) ==>
      exists pos :: pos in Targets(logs, KeySet(selected)) &&
        pos.0 < |logs| && pos.1 < |logs[pos.0].pinned| && ClipOf(logs[pos.0].pinned[pos.1]) == Some(c)
  {
    if selected != [] {
      var prev := selected[..|selected| - 1];
      var k := selected[|selected| - 1];
      SelectedClipsAreTargets(logs, prev);
      assert KeySet(selected) == KeySet(prev) + {k};
      TargetsAdd(logs, KeySet(prev), k);
    }
  }

  /** Conversely, every marked pin that owns a clip has that clip's deletion requested. */
  lemma {:induction false} TargetsHaveSelectedClips(logs: seq<Session>, selected: seq<PinKey>)
    ensures forall pos :: pos in Targets(logs, KeySet(selected)) ==>
      && pos.0 < |logs| && pos.1 < |logs[pos.0].pinned|
      && (ClipOf(logs[pos.0].pinned[pos.1]).Some? ==>
            ClipOf(logs[pos.0].pinned[pos.1]).value in SelectedClips(logs, selected))
  {
    if selected == [] {
      assert KeySet(selected) == {};
    } else {
      var prev := selected[..|selected| - 1];
      var k := selected[|selected| - 1];
      TargetsHaveSelectedClips(logs, prev);
      assert KeySet(selected) == KeySet(prev) + {k};
      TargetsAdd(logs, KeySet(prev), k);
    }
  }

  /** The persisted session log (`SESSION_LOGS`), oldest session first. */
  class SessionLogStore {
    var sessions: seq<Session>

    constructor (initial: seq<Session>)
      ensures sessions == initial
    {
      sessions := initial;
    }

    /** `saveSessionLog`: read the log, push one session, write it back. */
    method Append(session: Session)
      modifies this
      ensures sessions == old(sessions) + [session]
    {
      sessions := sessions + [session];
    }

    /** The delete paths persist the on-screen list reversed back into storage order. */
    method WriteDisplayed(displayed: seq<Session>)
      modifies this
      ensures sessions == Reverse(displayed)
    {
      sessions := Reverse(displayed);
    }
  }

  /** The clip files on the device, seen through the deletions requested of them. */
  class ClipStore {
    var deleted: seq<string>

    constructor ()
      ensures deleted == []
    {
      deleted := [];
    }

    /**
     * `FileSystem.deleteAsync(uri, { idempotent: true }).catch(() => {})`:
     * whatever the outcome, the caller carries on.
     */
    method DeleteAsync(uri: string)
      modifies this
      ensures deleted == old(deleted) + [uri]
    {
      deleted := deleted + [uri];
    }
  }
}
