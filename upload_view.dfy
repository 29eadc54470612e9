/** `components/upload/UploadView.tsx`: the list of selected files, each with
    a status and a progress percentage, and the three operations on it:
    adding dropped files, removing one, and uploading all of them one after
    another. The server's answer for each file is an input (`true` = an ok
    response); the preview object URLs, toasts and timer delays are not
    modelled. */
module UploadView {
  import opened Archive

  datatype Status = Pending | Uploading | Success | Error

  datatype Entry = Entry(file: FileRef, status: Status, progress: int)

  /** The entries `onDrop` appends, one per accepted file. */
  function Dropped(accepted: seq<FileRef>): (r: seq<Entry>)
    ensures |r| == |accepted|
    ensures forall k :: 0 <= k < |r| ==> r[k] == Entry(accepted[k], Pending, 0)
  {
    seq(|accepted|, k requires 0 <= k < |accepted| => Entry(accepted[k], Pending, 0))
  }

  /** The progress values that the simulated progress bar shows. */
  function ProgressSteps(): (r: seq<int>)
  {
    seq(11, k => 10 * k)
  }

  lemma ProgressStepsShape()
    ensures |ProgressSteps()| == 11
    ensures ProgressSteps()[0] == 0 && ProgressSteps()[10] == 100
    ensures forall k :: 0 < k < 11 ==> ProgressSteps()[k] == ProgressSteps()[k - 1] + 10
  {
  }

  /** An entry after its upload finished: an ok answer gives `success` at 100%,
      any other outcome gives `error` and keeps the progress it had. */
  function Resolved(e: Entry, ok: bool): (r: Entry)
    ensures r.file == e.file
    ensures ok ==> r.status == Success && r.progress == 100
    ensures !ok ==> r.status == Error && r.progress == e.progress
  {
    if ok then e.(status := Success, progress := 100) else e.(status := Error)
  }

  /** The list after `uploadFiles` has gone through every entry. */
  function UploadedAll(entries: seq<Entry>, outcomes: seq<bool>): (r: seq<Entry>)
    requires |outcomes| == |entries|
    ensures |r| == |entries|
    ensures forall k :: 0 <= k < |r| ==> r[k] == Resolved(entries[k], outcomes[k])
  {
    seq(|entries|, k requires 0 <= k < |entries| => Resolved(entries[k], outcomes[k]))
  }

  predicate AllSucceeded(entries: seq<Entry>)
  {
    forall k :: 0 <= k < |entries| ==> entries[k].status == Success
  }

  /** `disabled={isUploading || files.every(f => f.status === 'success')}` */
  predicate ButtonDisabled(isUploading: bool, entries: seq<Entry>)
  {
    isUploading || AllSucceeded(entries)
  }

  /** After a run in which every answer was ok, the button is disabled. */
  lemma AllOkDisablesButton(entries: seq<Entry>, outcomes: seq<bool>)
    requires |outcomes| == |entries|
    requires forall k :: 0 <= k < |outcomes| ==> outcomes[k]
    ensures ButtonDisabled(false, UploadedAll(entries, outcomes))
  {
  }

  /** After a run with one failure the button is enabled again, while the
      entries that did succeed stay `success`: pressing it sends them again. */
  lemma FailureReenablesButton(entries: seq<Entry>, outcomes: seq<bool>, j: nat)
    requires |outcomes| == |entries| && j < |outcomes| && !outcomes[j]
    ensures !ButtonDisabled(false, UploadedAll(entries, outcomes))
    ensures forall k :: 0 <= k < |entries| && outcomes[k] ==> UploadedAll(entries, outcomes)[k].status == Success
  {
    assert UploadedAll(entries, outcomes)[j].status == Error;
  }

  /** The list at the moment entry `k` is posted: the entries before it are
      already resolved, entry `k` is `uploading`, and the later ones are as
      they were when the run started. */
  predicate PostedAt(start: seq<Entry>, outcomes: seq<bool>, k: nat, snapshot: seq<Entry>)
    requires |outcomes| == |start|
  {
    && k < |start| && |snapshot| == |start|
    && (forall j :: 0 <= j < k ==> snapshot[j] == Resolved(start[j], outcomes[j]))
    && snapshot[k] == start[k].(status := Uploading)
    && (forall j :: k < j < |start| ==> snapshot[j] == start[j])
  }

  /** One `fetch('/api/upload')` of `uploadFiles`: the entry it sends, the list
      at that moment and the `isUploading` flag at that moment. */
  datatype Post = Post(index: nat, files: seq<Entry>, uploading: bool)

  class UploadQueue {
    var files: seq<Entry>
    var isUploading: bool

    constructor ()
      ensures files == [] && !isUploading
    {
      files := [];
      isUploading := false;
    }

    /** `onDrop`: append one pending entry at 0% per accepted file. */
    method OnDrop(accepted: seq<FileRef>)
      modifies this`files
      ensures files == old(files) + Dropped(accepted)
      ensures files[..|old(files)|] == old(files)
    {
      files := files + Dropped(accepted);
    }

    /** `removeFile(index)`: `splice(index, 1)`. For an index outside the list
        the updater reads `.preview` of `undefined` and throws a `TypeError`;
        `threw` reports that error, which goes on to React's render, and no
        new list is committed. */
    method RemoveFile(index: int) returns (threw: bool)
      modifies this`files
      ensures threw <==> !(0 <= index < |old(files)|)
      ensures !threw ==> files == old(files)[..index] + old(files)[index + 1..]
      ensures !threw ==>
        && |files| == |old(files)| - 1
        && (forall k :: 0 <= k < index ==> files[k] == old(files)[k])
        && (forall k :: index <= k < |files| ==> files[k] == old(files)[k + 1])
      ensures threw ==> files == old(files)
    {
      threw := !(0 <= index < |files|);
      if !threw {
        files := files[..index] + files[index + 1..];
      }
    }

    /** The progress loop `for (progress = 0; progress <= 100; progress += 10)`:
        `shown` is the sequence of percentages written into entry `i`. */
    method SimulateProgress(i: nat) returns (shown: seq<int>)
      requires i < |files|
      modifies this`files
      ensures shown == ProgressSteps()
      ensures files == old(files)[i := old(files)[i].(progress := 100)]
    {
      var progress := 0;
      shown := [];
      while progress <= 100
        invariant 0 <= progress <= 110 && progress % 10 == 0
        invariant shown == seq(progress / 10, k => 10 * k)
        invariant progress == 0 ==> files == old(files)
        invariant progress > 0 ==> files == old(files)[i := old(files)[i].(progress := progress - 10)]
        decreases 110 - progress
      {
        files := files[i := files[i].(progress := progress)];
        shown := shown + [progress];
        progress := progress + 10;
      }
    }

    /** `uploadFiles`: every entry, whatever its status, is marked `uploading`,
        sent, and resolved before the next one. `posts` lists the requests in
        the order they were made, `shown[k]` the progress values of entry `k`,
        and `toast` the count in the success toast (`None` when there is none). */
    method UploadFiles(outcomes: seq<bool>) returns (posts: seq<Post>, shown: seq<seq<int>>, toast: Option<nat>)
      requires |outcomes| == |files|
      modifies this
      ensures old(files) == [] ==>
        files == [] && isUploading == old(isUploading) && posts == [] && shown == [] && toast == None
      ensures old(files) != [] ==>
        files == UploadedAll(old(files), outcomes) && !isUploading && toast == Some(|old(files)|)
      // the k-th request sends entry k, while uploading, once entries 0..k-1 are resolved
      ensures |posts| == |old(files)|
      ensures forall k :: 0 <= k < |posts| ==>
        && posts[k].index == k && posts[k].uploading
        && PostedAt(old(files), outcomes, k, posts[k].files)
      ensures |shown| == |old(files)|
      ensures forall k :: 0 <= k < |shown| ==> shown[k] == if outcomes[k] then ProgressSteps() else []
    {
      posts, shown, toast := [], [], None;
      if |files| == 0 {
        return;
      }
      isUploading := true;
      var n := |files|;
      var i := 0;
      while i < n
        invariant 0 <= i <= n && |files| == n
        invariant isUploading
        invariant forall k :: 0 <= k < i ==> files[k] == Resolved(old(files)[k], outcomes[k])
        invariant forall k :: i <= k < n ==> files[k] == old(files)[k]
        invariant |posts| == i
        invariant forall k :: 0 <= k < i ==>
          && posts[k].index == k && posts[k].uploading
          && PostedAt(old(files), outcomes, k, posts[k].files)
        invariant |shown| == i
        invariant forall k :: 0 <= k < i ==> shown[k] == if outcomes[k] then ProgressSteps() else []
      {
        files := files[i := files[i].(status := Uploading)];
        posts := posts + [Post(i, files, isUploading)];
        if outcomes[i] {
          var steps := SimulateProgress(i);
          files := files[i := files[i].(status := Success, progress := 100)];
          shown := shown + [steps];
        } else {
          files := files[i := files[i].(status := Error)];
          shown := shown + [[]];
        }
        i := i + 1;
      }
      toast := Some(n);
      isUploading := false;
    }
  }
}
