/**
 * `main`: one pass of the transfer loop over the history record, which it
 * updates in place and saves after every change, proved to do what
 * `Pass.OnePass` says.
 */
module Uploader {
  import opened Wrappers
  import opened Videos
  import opened Metadata
  import opened History
  import opened Pass

  /**
   * What a pass reports: one of the two early exits, or the summary
   * counters, the final cursor against the list length, and how each
   * window item ended.
   */
  datatype Report =
    | NoVideosFound
    | AllVideosUploaded(total: nat)
    | Summary(successful: nat, failed: nat, progress: int, total: nat, events: seq<Event>)

  /** `videos_to_process`: the item at the cursor in single mode, everything from the cursor on in bulk mode. */
  method SelectWindow(videos: seq<Video>, cursor: int, uploadAll: bool) returns (w: seq<Video>)
    requires 0 <= cursor < |videos|
    ensures |w| == if uploadAll then |videos| - cursor else 1
    ensures forall i :: 0 <= i < |w| ==> w[i] == videos[cursor + i]
  {
    if uploadAll {
      w := videos[cursor..];
    } else {
      w := [videos[cursor]];
    }
  }

  /** The history dictionary: the cursor and the uploaded ids, updated in place. */
  class UploadHistory {
    var cursor: int
    var uploadedIds: seq<string>
    /** Every snapshot written to the history file, oldest first. */
    ghost var saved: seq<Record>

    function Snapshot(): Record
      reads this
    {
      Record(cursor, uploadedIds)
    }

    constructor (loaded: Record)
      ensures Snapshot() == loaded && saved == []
    {
      cursor := loaded.cursor;
      uploadedIds := loaded.uploadedIds;
      saved := [];
    }

    /** `save_uploaded_history`: writes the whole record. */
    method Save()
      modifies this`saved
      ensures saved == old(saved) + [Snapshot()]
    {
      saved := saved + [Snapshot()];
    }

    /**
     * One iteration of the loop on `video` at list index `at`: skip it when
     * its id is recorded, otherwise try the download and the upload; after
     * a skip or a publication move the cursor past it and save. `st` is the
     * pass so far, whose saves follow the snapshots in `before`.
     */
    method Visit(ghost st: PassState, ghost before: seq<Record>, username: string, video: Video, at: int,
                 waits: bool, outcome: Outcome)
      returns (e: Event)
      requires Snapshot() == st.record && saved == before + st.saves
      modifies this
      ensures var next := Step(username, st, Slot(video, at, waits, outcome));
        Snapshot() == next.record && saved == before + next.saves &&
        e == Classify(username, st.record.uploadedIds, video, waits, outcome)
    {
      if video.id in uploadedIds {
        cursor := at + 1;
        Save();
        return Skipped;
      }
      if outcome.DownloadFails? {
        return DownloadFailed;
      }
      var body := BodyFor(username, video);
      if outcome.UploadFails? {
        return UploadFailed;
      }
      uploadedIds := uploadedIds + [video.id];
      cursor := at + 1;
      Save();
      e := Uploaded(body, waits);
    }

    /**
     * The loop of a pass that got past both early exits: visit the window,
     * one item in single mode or the rest of the list in bulk mode, in list
     * order, counting publications and failures.
     */
    method ProcessWindow(inp: Inputs) returns (successful: nat, failed: nat, events: seq<Event>)
      requires Started(Snapshot(), inp)
      modifies this
      ensures var fin := Run(old(Snapshot()), inp);
        Snapshot() == fin.record && saved == old(saved) + fin.saves && events == fin.events &&
        successful == fin.successful && failed == fin.failed
    {
      ghost var init := Snapshot();
      ghost var before := saved;
      ghost var slots := Slots(init, inp);
      ghost var st := Initial(init);
      ghost var fin := Run(init, inp);
      var currentIndex := cursor;
      var toProcess := SelectWindow(inp.videos, currentIndex, inp.uploadAll);
      successful, failed, events := 0, 0, [];
      for idx := 0 to |toProcess|
        invariant |toProcess| == |slots|
        invariant Snapshot() == st.record && saved == before + st.saves
        invariant events == st.events && successful == st.successful && failed == st.failed
        invariant Fold(inp.username, st, slots[idx..]) == fin
      {
        var actualIndex := currentIndex + idx;
        var video := toProcess[idx];
        var waits := inp.uploadAll && idx < |toProcess| - 1;
        assert slots[idx] == Slot(video, actualIndex, waits, inp.outcomes[actualIndex]);
        assert slots[idx..][1..] == slots[idx + 1..];
        var e := Visit(st, before, inp.username, video, actualIndex, waits, inp.outcomes[actualIndex]);
        st := Step(inp.username, st, slots[idx]);
        events := events + [e];
        if e.Uploaded? {
          successful := successful + 1;
        } else if !e.Skipped? {
          failed := failed + 1;
        }
      }
    }

    /**
     * One pass over `videos`. `outcomes[i]` is what downloading and
     * uploading `videos[i]` would come to; it is consulted only for an item
     * whose id is not yet recorded.
     */
    method RunPass(username: string, videos: seq<Video>, uploadAll: bool, outcomes: seq<Outcome>)
      returns (report: Report)
      requires 0 <= cursor && |outcomes| == |videos|
      modifies this
      ensures var res := OnePass(old(Snapshot()), Inputs(username, videos, uploadAll, outcomes));
        Snapshot() == FinalRecord(old(Snapshot()), res) &&
        saved == old(saved) + SavesOf(res) &&
        (res.NoVideos? ==> report == NoVideosFound) &&
        (res.AllUploaded? ==> report == AllVideosUploaded(|videos|)) &&
        (res.Processed? ==> report == Summary(res.state.successful, res.state.failed,
                                              cursor, |videos|, res.state.events))
      ensures old(cursor) <= cursor
      ensures old(uploadedIds) <= uploadedIds
      ensures NoDuplicates(old(uploadedIds)) ==> NoDuplicates(uploadedIds)
      ensures saved != old(saved) ==> saved[|saved| - 1] == Snapshot()
      ensures var res := OnePass(old(Snapshot()), Inputs(username, videos, uploadAll, outcomes));
        report.Summary? ==>
        report.successful == |uploadedIds| - |old(uploadedIds)| &&
        report.successful + report.failed + res.state.skipped == |report.events| &&
        |report.events| == (if uploadAll then |videos| - old(cursor) else 1) &&
        cursor <= |videos| &&
        // `remaining` of the summary: what is left of the list past the final cursor
        report.total - report.progress == |videos| - cursor
    {
      PassCounts(Snapshot(), Inputs(username, videos, uploadAll, outcomes));
      PassRecord(Snapshot(), Inputs(username, videos, uploadAll, outcomes));
      if |videos| == 0 {
        return NoVideosFound;
      }
      if cursor >= |videos| {
        return AllVideosUploaded(|videos|);
      }
      var successful, failed, events := ProcessWindow(Inputs(username, videos, uploadAll, outcomes));
      report := Summary(successful, failed, cursor, |videos|, events);
    }
  }

  /**
   * The whole of `main` past its side effects: load the history (no file is
   * a fresh start), list the videos oldest first, and run one pass.
   */
  method Transfer(username: string, stored: Option<StoredHistory>, listing: Option<seq<Entry>>,
                  uploadAll: bool, outcomes: seq<Outcome>)
    returns (history: UploadHistory, report: Report)
    requires 0 <= LoadHistory(stored).cursor
    requires |outcomes| == |ListVideos(username, listing)|
    ensures fresh(history)
    ensures var res := OnePass(LoadHistory(stored), Inputs(username, ListVideos(username, listing), uploadAll, outcomes));
      history.Snapshot() == FinalRecord(LoadHistory(stored), res) && history.saved == SavesOf(res)
    ensures var vs := ListVideos(username, listing);
      var res := OnePass(LoadHistory(stored), Inputs(username, vs, uploadAll, outcomes));
      (res.NoVideos? ==> report == NoVideosFound) &&
      (res.AllUploaded? ==> report == AllVideosUploaded(|vs|)) &&
      (res.Processed? ==> report == Summary(res.state.successful, res.state.failed,
                                            history.cursor, |vs|, res.state.events))
    ensures listing.None? ==> report == NoVideosFound && history.saved == []
  {
    history := new UploadHistory(LoadHistory(stored));
    var videos := ListVideos(username, listing);
    report := history.RunPass(username, videos, uploadAll, outcomes);
  }
}
