/** The downloads panel: the list of downloads, newest first, updated by the
    main process's download-started and download-complete messages. */
module Downloads {

  datatype Status = Downloading | Completed | Failed

  datatype DownloadItem = DownloadItem(filename: string, path: string, status: Status)

  /** download-started: the new download goes in front, still downloading. */
  function WithStarted(prev: seq<DownloadItem>, filename: string, path: string): (r: seq<DownloadItem>)
    ensures |r| == |prev| + 1
    ensures r[0] == DownloadItem(filename, path, Downloading)
    ensures r[1..] == prev
  {
    [DownloadItem(filename, path, Downloading)] + prev
  }

  function MarkCompleted(d: DownloadItem, filename: string): DownloadItem {
    if d.filename == filename then d.(status := Completed) else d
  }

  /** download-complete: every entry with that file name is completed, the
      others are kept; length and order do not change. */
  function WithCompleted(prev: seq<DownloadItem>, filename: string): (r: seq<DownloadItem>)
    ensures |r| == |prev|
    ensures forall i :: 0 <= i < |prev| && prev[i].filename == filename ==>
      r[i] == prev[i].(status := Completed)
    ensures forall i :: 0 <= i < |prev| && prev[i].filename != filename ==> r[i] == prev[i]
  {
    seq(|prev|, i requires 0 <= i < |prev| => MarkCompleted(prev[i], filename))
  }

  /** A file name that is not in the list changes nothing. */
  lemma UnknownFileIsNoOp(prev: seq<DownloadItem>, filename: string)
    requires forall i :: 0 <= i < |prev| ==> prev[i].filename != filename
    ensures WithCompleted(prev, filename) == prev
  {
  }

  /** Completing twice is completing once. */
  lemma CompleteIdempotent(prev: seq<DownloadItem>, filename: string)
    ensures WithCompleted(WithCompleted(prev, filename), filename) == WithCompleted(prev, filename)
  {
  }

  /** The two messages the panel listens to. */
  datatype Event = StartedEvent(filename: string, path: string) | CompleteEvent(filename: string)

  function Apply(prev: seq<DownloadItem>, e: Event): seq<DownloadItem> {
    match e
    case StartedEvent(f, p) => WithStarted(prev, f, p)
    case CompleteEvent(f) => WithCompleted(prev, f)
  }

  /** The list after a sequence of messages, starting empty. */
  function History(events: seq<Event>): seq<DownloadItem>
    decreases |events|
  {
    if events == [] then [] else Apply(History(events[..|events| - 1]), events[|events| - 1])
  }

  predicate NoneFailed(ds: seq<DownloadItem>) {
    forall i :: 0 <= i < |ds| ==> ds[i].status != Failed
  }

  function StartedCount(events: seq<Event>): nat
    decreases |events|
  {
    if events == [] then 0
    else StartedCount(events[..|events| - 1]) + (if events[|events| - 1].StartedEvent? then 1 else 0)
  }

  /** No message produces a failed download: whatever arrives, the list never
      holds one; and it holds one entry per download-started message. */
  lemma {:induction false} NeverFailed(events: seq<Event>)
    ensures NoneFailed(History(events))
    ensures |History(events)| == StartedCount(events)
    decreases |events|
  {
    if events != [] {
      NeverFailed(events[..|events| - 1]);
    }
  }
}
