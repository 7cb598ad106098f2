/**
 * The reference semantics of one pass of `main`: a pure function of the
 * progress record it starts from, the video list, the mode and the outcome
 * of every transfer it attempts. The loop is a fold of `Step` over the
 * window; the lemmas about `Fold` hold from any state the loop can be in,
 * and the lemmas about `Run` and `OnePass` apply them to a whole pass. The
 * class in module Uploader is proved to do exactly this.
 */
module Pass {
  import opened Wrappers
  import opened Videos
  import opened Metadata
  import opened History

  /** What downloading and uploading one item come to (the external calls). */
  datatype Outcome = DownloadFails | UploadFails | Published

  /**
   * How one item of the window ends. `body` is the metadata it was published
   * with; `waits` says whether the rate-limit delay follows it.
   */
  datatype Event = Skipped | DownloadFailed | UploadFailed | Uploaded(body: UploadBody, waits: bool)

  /** The events after which the cursor moves and the record is saved. */
  predicate Advances(e: Event) {
    e.Skipped? || e.Uploaded?
  }

  /** Everything a pass decides on besides the record: `outcomes[i]` is what an attempt on `videos[i]` comes to. */
  datatype Inputs = Inputs(username: string, videos: seq<Video>, uploadAll: bool, outcomes: seq<Outcome>)

  /**
   * The record, the events so far, the snapshots saved so far, and the
   * counters: `successful` and `failed` are the ones the pass reports,
   * `skipped` and `delays` count the skips and the rate-limit waits.
   */
  datatype PassState = PassState(record: Record, events: seq<Event>, saves: seq<Record>,
                                 successful: nat, failed: nat, skipped: nat, delays: nat)

  /**
   * One item of the window: the video, its list index (`actual_index`),
   * whether the delay would follow its publication, and what an attempt on
   * it comes to.
   */
  datatype Slot = Slot(video: Video, at: int, waits: bool, outcome: Outcome)

  /** A pass that gets past both early exits: the cursor points into the list. */
  predicate Started(init: Record, inp: Inputs) {
    0 <= init.cursor < |inp.videos| && |inp.outcomes| == |inp.videos|
  }

  /** How many items the pass visits: one in single mode, the rest of the list in bulk mode. */
  function WindowLength(init: Record, inp: Inputs): (n: nat)
    requires Started(init, inp)
    ensures 1 <= n && init.cursor + n <= |inp.videos|
    ensures inp.uploadAll ==> init.cursor + n == |inp.videos|
  {
    if inp.uploadAll then |inp.videos| - init.cursor else 1
  }

  /** How the item `v` ends, given the ids recorded so far and its outcome. */
  function Classify(username: string, ids: seq<string>, v: Video, waits: bool, o: Outcome): (e: Event)
    ensures e.Skipped? <==> v.id in ids
  {
    if v.id in ids then Skipped
    else if o.DownloadFails? then DownloadFailed
    else if o.UploadFails? then UploadFailed
    else Uploaded(BodyFor(username, v), waits)
  }

  /** The record after item `v` at list index `at` ended with `e`. */
  function Effect(r: Record, v: Video, at: int, e: Event): Record {
    if e.Skipped? then Record(at + 1, r.uploadedIds)
    else if e.Uploaded? then Record(at + 1, r.uploadedIds + [v.id])
    else r
  }

  /** The pass before its first item: the record as loaded, nothing done yet. */
  function Initial(r: Record): PassState {
    PassState(r, [], [], 0, 0, 0, 0)
  }

  /**
   * One iteration of the loop on slot `s`: the save follows every change,
   * and the counter of the way the item ended grows.
   */
  function Step(username: string, st: PassState, s: Slot): PassState {
    var e := Classify(username, st.record.uploadedIds, s.video, s.waits, s.outcome);
    var r := Effect(st.record, s.video, s.at, e);
    PassState(r, st.events + [e], if Advances(e) then st.saves + [r] else st.saves,
              st.successful + (if e.Uploaded? then 1 else 0),
              st.failed + (if e.DownloadFailed? || e.UploadFailed? then 1 else 0),
              st.skipped + (if e.Skipped? then 1 else 0),
              st.delays + (if e.Uploaded? && e.waits then 1 else 0))
  }

  /** The loop over the slots `w`, in order, from the state `st`. */
  function Fold(username: string, st: PassState, w: seq<Slot>): PassState
    decreases |w|
  {
    if w == [] then st else Fold(username, Step(username, st, w[0]), w[1..])
  }

  /**
   * The `n` slots from list index `at` on: slot `i` is list index `at + i`,
   * and in bulk mode the delay follows a publication in every slot but the
   * last.
   */
  function SlotsFrom(inp: Inputs, at: nat, n: nat): (w: seq<Slot>)
    requires at + n <= |inp.videos| && |inp.outcomes| == |inp.videos|
    ensures |w| == n
    ensures forall i :: 0 <= i < n ==>
      w[i] == Slot(inp.videos[at + i], at + i, inp.uploadAll && i < n - 1, inp.outcomes[at + i])
    decreases n
  {
    if n == 0 then []
    else [Slot(inp.videos[at], at, inp.uploadAll && n > 1, inp.outcomes[at])] + SlotsFrom(inp, at + 1, n - 1)
  }

  /** The window, `videos_to_process` under `enumerate`: window position `i` is list index `cursor + i`. */
  function Slots(init: Record, inp: Inputs): (w: seq<Slot>)
    requires Started(init, inp)
    ensures |w| == WindowLength(init, inp)
    ensures forall i :: 0 <= i < |w| ==>
      w[i] == Slot(inp.videos[init.cursor + i], init.cursor + i,
                   inp.uploadAll && i < |w| - 1, inp.outcomes[init.cursor + i])
  {
    SlotsFrom(inp, init.cursor, WindowLength(init, inp))
  }

  /** The slots sit at consecutive list indices from `base`. */
  predicate Consecutive(w: seq<Slot>, base: int) {
    forall i :: 0 <= i < |w| ==> w[i].at == base + i
  }

  lemma ConsecutiveSlice(w: seq<Slot>, base: int, a: nat, b: nat)
    requires Consecutive(w, base) && a <= b <= |w|
    ensures Consecutive(w[a..b], base + a)
  {
    forall i | 0 <= i < b - a ensures w[a..b][i].at == base + a + i {
      assert w[a..b][i] == w[a + i];
    }
  }

  /** The state after the whole window. */
  function Run(init: Record, inp: Inputs): PassState
    requires Started(init, inp)
  {
    Fold(inp.username, Initial(init), Slots(init, inp))
  }

  datatype PassResult = NoVideos | AllUploaded | Processed(state: PassState)

  /** A whole pass: the two early exits, then the window. */
  function OnePass(init: Record, inp: Inputs): PassResult
    requires 0 <= init.cursor && |inp.outcomes| == |inp.videos|
  {
    if |inp.videos| == 0 then NoVideos
    else if init.cursor >= |inp.videos| then AllUploaded
    else Processed(Run(init, inp))
  }

  function FinalRecord(init: Record, res: PassResult): Record {
    if res.Processed? then res.state.record else init
  }

  function SavesOf(res: PassResult): seq<Record> {
    if res.Processed? then res.state.saves else []
  }

  /** One past the last position whose event advanced the cursor, or 0 if none did. */
  function Reach(es: seq<Event>): (n: nat)
    ensures n <= |es|
  {
    if es == [] then 0
    else
      var rest := Reach(es[1..]);
      if rest > 0 then rest + 1 else if Advances(es[0]) then 1 else 0
  }

  /** The ids of the slots whose event is a publication, in window order. */
  function PublishedIds(w: seq<Slot>, es: seq<Event>): seq<string>
    requires |w| == |es|
  {
    if w == [] then []
    else (if es[0].Uploaded? then [w[0].video.id] else []) + PublishedIds(w[1..], es[1..])
  }

  /** `Reach` is one past the last advancing position: that one advances and none after it does. */
  lemma {:induction false} ReachIsLastAdvance(es: seq<Event>)
    ensures Reach(es) > 0 ==> Advances(es[Reach(es) - 1])
    ensures forall j :: Reach(es) <= j < |es| ==> !Advances(es[j])
  {
    if es != [] {
      ReachIsLastAdvance(es[1..]);
      forall j | Reach(es) <= j < |es| ensures !Advances(es[j]) {
        if j > 0 { assert es[j] == es[1..][j - 1]; }
      }
    }
  }

  /**
   * What one item does. A recorded id is skipped without download or
   * upload, moves the cursor to one past its list index and saves. A failed
   * download or upload leaves the record alone and saves nothing. A
   * publication appends the id once, moves the cursor past the item and
   * saves; it used the item's metadata, and the delay follows it exactly
   * when the slot says so.
   */
  lemma StepEffect(username: string, st: PassState, s: Slot)
    ensures var next := Step(username, st, s);
      var e := next.events[|st.events|];
      var ids := st.record.uploadedIds;
      next.events == st.events + [e] &&
      (e.Skipped? <==> s.video.id in ids) &&
      (e.DownloadFailed? <==> s.video.id !in ids && s.outcome.DownloadFails?) &&
      (e.UploadFailed? <==> s.video.id !in ids && s.outcome.UploadFails?) &&
      (e.Skipped? ==>
        next.record == Record(s.at + 1, ids) && next.saves == st.saves + [next.record] &&
        next.skipped == st.skipped + 1) &&
      (!Advances(e) ==>
        next.record == st.record && next.saves == st.saves && next.failed == st.failed + 1) &&
      (e.Uploaded? ==>
        next.record == Record(s.at + 1, ids + [s.video.id]) &&
        next.saves == st.saves + [next.record] && next.successful == st.successful + 1 &&
        e.body == BodyFor(username, s.video) && e.waits == s.waits) &&
      next.delays == st.delays + (if e.Uploaded? && s.waits then 1 else 0)
  {
  }

  /** The loop only appends: to the events (one per slot), to the saves and to the ids. */
  lemma {:induction false} FoldExtends(username: string, st: PassState, w: seq<Slot>)
    ensures var fin := Fold(username, st, w);
      |fin.events| == |st.events| + |w| && fin.events[..|st.events|] == st.events &&
      st.saves <= fin.saves && st.record.uploadedIds <= fin.record.uploadedIds
    decreases |w|
  {
    if w != [] {
      var next := Step(username, st, w[0]);
      FoldExtends(username, next, w[1..]);
      var fin := Fold(username, next, w[1..]);
      assert fin.events[..|st.events|] == fin.events[..|next.events|][..|st.events|];
    }
  }

  /** The loop over two pieces of a window is the loop over the second from where the first ends. */
  lemma {:induction false} FoldSplit(username: string, st: PassState, a: seq<Slot>, b: seq<Slot>)
    ensures Fold(username, st, a + b) == Fold(username, Fold(username, st, a), b)
    decreases |a|
  {
    if a == [] {
      assert a + b == b;
    } else {
      assert (a + b)[1..] == a[1..] + b;
      FoldSplit(username, Step(username, st, a[0]), a[1..], b);
    }
  }

  /**
   * The counters add up: every slot is published, failed or skipped, a save
   * follows each skip and each publication, and the ids grow by one per
   * publication.
   */
  lemma {:induction false} FoldCounts(username: string, st: PassState, w: seq<Slot>)
    ensures var fin := Fold(username, st, w);
      fin.successful + fin.failed + fin.skipped == st.successful + st.failed + st.skipped + |w| &&
      |fin.saves| - |st.saves| == (fin.successful - st.successful) + (fin.skipped - st.skipped) &&
      |fin.record.uploadedIds| - |st.record.uploadedIds| == fin.successful - st.successful
    decreases |w|
  {
    if w != [] {
      FoldCounts(username, Step(username, st, w[0]), w[1..]);
    }
  }

  /** The ids grow by exactly the published ones, in window order. */
  lemma {:induction false} FoldIds(username: string, st: PassState, w: seq<Slot>)
    ensures var fin := Fold(username, st, w);
      |fin.events| == |st.events| + |w| &&
      fin.record.uploadedIds == st.record.uploadedIds + PublishedIds(w, fin.events[|st.events|..])
    decreases |w|
  {
    FoldExtends(username, st, w);
    if w != [] {
      var next := Step(username, st, w[0]);
      var fin := Fold(username, next, w[1..]);
      FoldIds(username, next, w[1..]);
      FoldExtends(username, next, w[1..]);
      var added := fin.events[|st.events|..];
      assert added[0] == next.events[|st.events|];
      assert added[1..] == fin.events[|next.events|..];
    }
  }

  /** Every id the loop publishes was not recorded when the loop began: nothing is published twice. */
  lemma {:induction false} FoldPublishesNewIds(username: string, st: PassState, w: seq<Slot>)
    ensures var fin := Fold(username, st, w);
      |fin.events| == |st.events| + |w| &&
      forall x :: x in PublishedIds(w, fin.events[|st.events|..]) ==> x !in st.record.uploadedIds
    decreases |w|
  {
    FoldExtends(username, st, w);
    if w != [] {
      var next := Step(username, st, w[0]);
      var fin := Fold(username, next, w[1..]);
      FoldPublishesNewIds(username, next, w[1..]);
      FoldExtends(username, next, w[1..]);
      var added := fin.events[|st.events|..];
      assert added[0] == next.events[|st.events|];
      assert added[1..] == fin.events[|next.events|..];
      assert st.record.uploadedIds <= next.record.uploadedIds;
    }
  }

  /** A record without duplicate ids keeps none, even when the list repeats an id. */
  lemma {:induction false} FoldNoDuplicates(username: string, st: PassState, w: seq<Slot>)
    requires NoDuplicates(st.record.uploadedIds)
    ensures NoDuplicates(Fold(username, st, w).record.uploadedIds)
    decreases |w|
  {
    if w != [] {
      FoldNoDuplicates(username, Step(username, st, w[0]), w[1..]);
    }
  }

  /**
   * Over slots at consecutive list indices from `base`, the cursor ends one
   * past the last slot that advanced it, or where it was if none did; it
   * never falls and never passes the window.
   */
  lemma {:induction false} FoldCursor(username: string, st: PassState, w: seq<Slot>, base: int)
    requires Consecutive(w, base)
    requires st.record.cursor <= base
    ensures var fin := Fold(username, st, w);
      |fin.events| == |st.events| + |w| &&
      var r := Reach(fin.events[|st.events|..]);
      fin.record.cursor == (if r == 0 then st.record.cursor else base + r) &&
      st.record.cursor <= fin.record.cursor <= base + |w|
    decreases |w|
  {
    FoldExtends(username, st, w);
    if w != [] {
      var next := Step(username, st, w[0]);
      var fin := Fold(username, next, w[1..]);
      ConsecutiveSlice(w, base, 1, |w|);
      FoldCursor(username, next, w[1..], base + 1);
      FoldExtends(username, next, w[1..]);
      var added := fin.events[|st.events|..];
      assert added[0] == next.events[|st.events|];
      assert added[1..] == fin.events[|next.events|..];
    }
  }

  /**
   * The delays: with no slot marked to wait nothing waits; in bulk mode
   * every publication waits except one in the last slot.
   */
  lemma {:induction false} FoldDelays(username: string, st: PassState, w: seq<Slot>, uploadAll: bool)
    requires forall i :: 0 <= i < |w| ==> w[i].waits == (uploadAll && i < |w| - 1)
    ensures var fin := Fold(username, st, w);
      |fin.events| == |st.events| + |w| &&
      (!uploadAll ==> fin.delays == st.delays) &&
      (uploadAll ==>
        fin.delays + (if w != [] && fin.events[|fin.events| - 1].Uploaded? then 1 else 0) ==
        st.delays + (fin.successful - st.successful))
    decreases |w|
  {
    FoldExtends(username, st, w);
    if w != [] {
      var next := Step(username, st, w[0]);
      FoldDelays(username, next, w[1..], uploadAll);
      FoldExtends(username, next, w[1..]);
      FoldCounts(username, next, w[1..]);
    }
  }

  /** The last snapshot saved is the record as it stands: a crash after any save loses nothing. */
  lemma {:induction false} FoldLastSave(username: string, st: PassState, w: seq<Slot>)
    requires st.saves != [] ==> st.saves[|st.saves| - 1] == st.record
    ensures var fin := Fold(username, st, w);
      fin.saves != [] ==> fin.saves[|fin.saves| - 1] == fin.record
    decreases |w|
  {
    if w != [] {
      FoldLastSave(username, Step(username, st, w[0]), w[1..]);
    }
  }

  /**
   * When every slot's id is already recorded, the loop downloads and
   * uploads nothing: every slot is skipped, the ids stay as they were, the
   * cursor moves past the last slot, and the outcomes are never consulted.
   */
  lemma {:induction false} FoldAllRecorded(username: string, st: PassState, w: seq<Slot>, other: seq<Slot>)
    requires forall i :: 0 <= i < |w| ==> w[i].video.id in st.record.uploadedIds
    requires |other| == |w|
    requires forall i :: 0 <= i < |w| ==>
      other[i].video == w[i].video && other[i].at == w[i].at && other[i].waits == w[i].waits
    ensures var fin := Fold(username, st, w);
      fin.record.uploadedIds == st.record.uploadedIds &&
      fin.successful == st.successful && fin.failed == st.failed &&
      fin.skipped == st.skipped + |w| &&
      (w != [] ==> fin.record.cursor == w[|w| - 1].at + 1) &&
      Fold(username, st, other) == fin
    decreases |w|
  {
    if w != [] {
      var next := Step(username, st, w[0]);
      assert Step(username, st, other[0]) == next;
      FoldAllRecorded(username, next, w[1..], other[1..]);
    }
  }

  /**
   * The item at window position `j`: the state after it is one `Step` from
   * the state after the items before it, its event is the pass's `j`-th,
   * and the cursor before it is at most its list index.
   */
  lemma ItemAt(init: Record, inp: Inputs, j: nat)
    requires Started(init, inp) && j < WindowLength(init, inp)
    ensures var w := Slots(init, inp);
      var before := Fold(inp.username, Initial(init), w[..j]);
      var after := Step(inp.username, before, w[j]);
      Fold(inp.username, Initial(init), w[..j + 1]) == after &&
      |before.events| == j && |Run(init, inp).events| == |w| &&
      Run(init, inp).events[j] == after.events[j] &&
      before.record.cursor <= init.cursor + j
  {
    var u, w := inp.username, Slots(init, inp);
    var before := Fold(u, Initial(init), w[..j]);
    var after := Step(u, before, w[j]);
    assert w[..j + 1] == w[..j] + [w[j]];
    FoldSplit(u, Initial(init), w[..j], [w[j]]);
    assert Fold(u, before, [w[j]]) == Fold(u, after, []);
    assert w == w[..j + 1] + w[j + 1..];
    FoldSplit(u, Initial(init), w[..j + 1], w[j + 1..]);
    FoldExtends(u, Initial(init), w[..j]);
    FoldExtends(u, after, w[j + 1..]);
    assert Consecutive(w, init.cursor);
    ConsecutiveSlice(w, init.cursor, 0, j);
    assert w[0..j] == w[..j];
    FoldCursor(u, Initial(init), w[..j], init.cursor);
    var fin := Fold(u, after, w[j + 1..]);
    assert fin.events[..j + 1][j] == fin.events[j];
  }

  /** Within a pass the cursor never falls: after more items it is at least where it was after fewer. */
  lemma CursorNeverFalls(init: Record, inp: Inputs, j: nat, k: nat)
    requires Started(init, inp) && j <= k <= WindowLength(init, inp)
    ensures var w := Slots(init, inp);
      Fold(inp.username, Initial(init), w[..j]).record.cursor <=
      Fold(inp.username, Initial(init), w[..k]).record.cursor
  {
    var u, w := inp.username, Slots(init, inp);
    var before := Fold(u, Initial(init), w[..j]);
    assert Consecutive(w, init.cursor);
    ConsecutiveSlice(w, init.cursor, 0, j);
    assert w[0..j] == w[..j];
    FoldCursor(u, Initial(init), w[..j], init.cursor);
    assert w[..k] == w[..j] + w[j..k];
    FoldSplit(u, Initial(init), w[..j], w[j..k]);
    ConsecutiveSlice(w, init.cursor, j, k);
    FoldCursor(u, before, w[j..k], init.cursor + j);
  }

  /**
   * One whole pass. An empty list, or a cursor at or past its end, ends the
   * pass with the record untouched and nothing saved. Otherwise the window
   * has one item in single mode and the rest of the list in bulk mode; the
   * counters add up to it, and a save follows each skip and publication.
   */
  lemma PassCounts(init: Record, inp: Inputs)
    requires 0 <= init.cursor && |inp.outcomes| == |inp.videos|
    ensures var res := OnePass(init, inp);
      (res.Processed? <==> 0 < |inp.videos| && init.cursor < |inp.videos|) &&
      (!res.Processed? ==> FinalRecord(init, res) == init && SavesOf(res) == []) &&
      (res.Processed? ==>
        var st := res.state;
        |st.events| == (if inp.uploadAll then |inp.videos| - init.cursor else 1) &&
        st.successful + st.failed + st.skipped == |st.events| &&
        |st.saves| == st.successful + st.skipped &&
        |st.record.uploadedIds| == |init.uploadedIds| + st.successful &&
        (!inp.uploadAll ==> st.delays == 0) &&
        (inp.uploadAll ==>
          st.delays == st.successful - (if st.events[|st.events| - 1].Uploaded? then 1 else 0)))
  {
    if Started(init, inp) {
      var w := Slots(init, inp);
      FoldCounts(inp.username, Initial(init), w);
      FoldExtends(inp.username, Initial(init), w);
      FoldDelays(inp.username, Initial(init), w, inp.uploadAll);
    }
  }

  /**
   * Where a pass leaves the record: the ids are the old ones followed by
   * the published ones, each new to the record, with no duplicate if there
   * was none; the cursor is one past the last item skipped or published,
   * or unchanged if there was none, and stays within the list; the last
   * save is the final record.
   */
  lemma PassRecord(init: Record, inp: Inputs)
    requires 0 <= init.cursor && |inp.outcomes| == |inp.videos|
    ensures var res := OnePass(init, inp);
      var fin := FinalRecord(init, res);
      (res.Processed? ==>
        var st := res.state;
        var w := Slots(init, inp);
        |st.events| == |w| &&
        fin.uploadedIds == init.uploadedIds + PublishedIds(w, st.events) &&
        (forall x :: x in PublishedIds(w, st.events) ==> x !in init.uploadedIds) &&
        fin.cursor == (if Reach(st.events) == 0 then init.cursor else init.cursor + Reach(st.events)) &&
        init.cursor <= fin.cursor <= |inp.videos|) &&
      (NoDuplicates(init.uploadedIds) ==> NoDuplicates(fin.uploadedIds)) &&
      (SavesOf(res) != [] ==> SavesOf(res)[|SavesOf(res)| - 1] == fin)
  {
    if Started(init, inp) {
      var u, w := inp.username, Slots(init, inp);
      var st := Fold(u, Initial(init), w);
      FoldIds(u, Initial(init), w);
      FoldPublishesNewIds(u, Initial(init), w);
      assert Consecutive(w, init.cursor);
      FoldCursor(u, Initial(init), w, init.cursor);
      FoldLastSave(u, Initial(init), w);
      if NoDuplicates(init.uploadedIds) {
        FoldNoDuplicates(u, Initial(init), w);
      }
      assert st.events[0..] == st.events;
    }
  }

  /**
   * A pass over a window whose ids are all recorded downloads and uploads
   * nothing: the ids stay, the cursor moves past the window, whatever the
   * outcomes would have been. In bulk mode the next pass has nothing left.
   */
  lemma AllRecordedPass(init: Record, inp: Inputs, other: seq<Outcome>)
    requires Started(init, inp) && |other| == |inp.outcomes|
    requires forall i :: init.cursor <= i < init.cursor + WindowLength(init, inp) ==>
      inp.videos[i].id in init.uploadedIds
    ensures var st := Run(init, inp);
      st.record == Record(init.cursor + WindowLength(init, inp), init.uploadedIds) &&
      st.successful == 0 && st.failed == 0 &&
      Run(init, inp.(outcomes := other)) == st &&
      (inp.uploadAll ==> OnePass(st.record, inp) == AllUploaded)
  {
    var w, w2 := Slots(init, inp), Slots(init, inp.(outcomes := other));
    FoldAllRecorded(inp.username, Initial(init), w, w2);
  }

  /**
   * In bulk mode the cursor passes over a failed item when a later one
   * succeeds: with items a, b where a's download fails and b is published,
   * the cursor ends at 2 with only b recorded, and the next pass has nothing
   * left to do, so a is not retried.
   */
  lemma BulkPassSkipsPastFailure(username: string)
    ensures var a := Video("a", "first", "https://example.invalid/a", None);
      var b := Video("b", "second", "https://example.invalid/b", None);
      var inp := Inputs(username, [a, b], true, [DownloadFails, Published]);
      var res := OnePass(Record(0, []), inp);
      res.Processed? && |res.state.events| == 2 &&
      res.state.events[0] == DownloadFailed && res.state.events[1].Uploaded? &&
      res.state.record == Record(2, ["b"]) &&
      OnePass(res.state.record, inp) == AllUploaded
  {
    var a := Video("a", "first", "https://example.invalid/a", None);
    var b := Video("b", "second", "https://example.invalid/b", None);
    var inp := Inputs(username, [a, b], true, [DownloadFails, Published]);
    var w := Slots(Record(0, []), inp);
    assert w == [Slot(a, 0, true, DownloadFails), Slot(b, 1, false, Published)];
    var s1 := Step(username, Initial(Record(0, [])), w[0]);
    assert s1.record == Record(0, []);
    var s2 := Step(username, s1, w[1]);
    assert s2.record == Record(2, ["b"]);
    assert w[1..][0] == w[1] && w[1..][1..] == [];
    assert Fold(username, s1, w[1..]) == Fold(username, s2, []);
    assert Run(Record(0, []), inp) == s2;
  }

  /**
   * Items A, B, C with A recorded and the cursor at 1, in single mode: when B
   * is published the record becomes cursor 2 with A and B; when its upload
   * fails the record stays, so the next single pass tries B again.
   */
  lemma SingleModeScenario(username: string, videos: seq<Video>, outA: Outcome, outC: Outcome)
    requires |videos| == 3 && videos[0].id == "A" && videos[1].id == "B" && videos[2].id == "C"
    ensures var init := Record(1, ["A"]);
      var ok := OnePass(init, Inputs(username, videos, false, [outA, Published, outC]));
      var bad := OnePass(init, Inputs(username, videos, false, [outA, UploadFails, outC]));
      ok.Processed? && ok.state.record == Record(2, ["A", "B"]) &&
      bad.Processed? && bad.state.record == init && bad.state.saves == [] &&
      bad.state.events == [UploadFailed]
  {
    var init := Record(1, ["A"]);
    assert "B" !in init.uploadedIds;
    var okIn := Inputs(username, videos, false, [outA, Published, outC]);
    var badIn := Inputs(username, videos, false, [outA, UploadFails, outC]);
    var okW, badW := Slots(init, okIn), Slots(init, badIn);
    assert okW == [Slot(videos[1], 1, false, Published)];
    assert badW == [Slot(videos[1], 1, false, UploadFails)];
    assert okW[1..] == [] && badW[1..] == [];
    assert Run(init, okIn) == Fold(username, Step(username, Initial(init), okW[0]), []);
    assert Run(init, badIn) == Fold(username, Step(username, Initial(init), badW[0]), []);
  }
}
