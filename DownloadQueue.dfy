/** The download queue: `enqueue_download`, `process_next_download` and the
    `finish` callback that `download_video` schedules when its process has
    exited. At most one download runs at a time; waiting items start in the
    order they were enqueued. */
module DownloadQueue {
  import opened Wrappers

  /** The text of an item's status label in the queue list. */
  datatype Status = Queued | Downloading | Done | Failed

  /** The item dictionary built by `enqueue_download`. `speedLimit` is the
      window's speed limit when the item was enqueued. */
  datatype Item = Item(
    url: string,
    formatId: Option<string>,
    selector: Option<string>,
    formatLabel: string,
    title: string,
    speedLimit: Option<string>,
    postArgs: Option<seq<string>>)

  /** A row of the history list: the title and the (possibly missing)
      destination path. */
  datatype HistoryEntry = HistoryEntry(title: string, path: Option<string>)

  /** The queue's state. Item `i` is the `i`-th row ever added to the queue
      list and `status[i]` its label; `queue` holds the ids still waiting,
      `active` the id the worker is downloading. */
  datatype QState = QState(
    items: seq<Item>,
    status: seq<Status>,
    queue: seq<nat>,
    isDownloading: bool,
    active: Option<nat>,
    history: seq<HistoryEntry>)

  /** What holds between any two steps of an operation:
      - every row has a status;
      - the waiting ids are exactly the rows labelled Queued, in enqueue order;
      - the flag is set exactly when an item is being downloaded, and that
        item is the only row labelled Downloading. */
  ghost predicate Coherent(s: QState) {
    && |s.status| == |s.items|
    && (forall k :: 0 <= k < |s.queue| ==> s.queue[k] < |s.items| && s.status[s.queue[k]] == Queued)
    && (forall k, l :: 0 <= k < l < |s.queue| ==> s.queue[k] < s.queue[l])
    && (forall i :: 0 <= i < |s.items| && s.status[i] == Queued ==> i in s.queue)
    && (s.isDownloading <==> s.active.Some?)
    && (s.active.Some? ==> s.active.value < |s.items| && s.status[s.active.value] == Downloading)
    && (forall i :: 0 <= i < |s.items| && s.status[i] == Downloading ==> s.active == Some(i))
  }

  /** The invariant every operation keeps: the state is coherent and, when
      no download runs, nothing is waiting. */
  ghost predicate Valid(s: QState) {
    Coherent(s) && (!s.isDownloading ==> s.queue == [])
  }

  function Empty(): QState {
    QState([], [], [], false, None, [])
  }

  /** `process_next_download`: nothing when busy or when nothing waits;
      otherwise the head of the queue starts. */
  function ProcessNextSpec(s: QState): QState
    requires forall k :: 0 <= k < |s.queue| ==> s.queue[k] < |s.status|
  {
    if s.isDownloading || s.queue == [] then s
    else
      s.(queue := s.queue[1..], isDownloading := true, active := Some(s.queue[0]),
         status := s.status[s.queue[0] := Downloading])
  }

  /** `enqueue_download`: a new Queued row at the tail, then
      `process_next_download`. */
  function EnqueueSpec(s: QState, it: Item): QState
    requires |s.status| == |s.items|
    requires forall k :: 0 <= k < |s.queue| ==> s.queue[k] < |s.status|
  {
    ProcessNextSpec(s.(items := s.items + [it], status := s.status + [Queued], queue := s.queue + [|s.items|]))
  }

  /** `finish`: the active row becomes Done or Failed by the exit status, a
      successful download adds a history row, the flag is cleared and the
      next item starts. */
  function FinishSpec(s: QState, success: bool, dest: Option<string>): QState
    requires s.active.Some? && s.active.value < |s.items| && |s.status| == |s.items|
    requires forall k :: 0 <= k < |s.queue| ==> s.queue[k] < |s.status|
  {
    var id := s.active.value;
    ProcessNextSpec(s.(
      status := s.status[id := if success then Done else Failed],
      history := if success then s.history + [HistoryEntry(s.items[id].title, dest)] else s.history,
      isDownloading := false,
      active := None))
  }

  /** The label changes a row may go through in one operation. */
  predicate Allowed(before: Status, after: Status) {
    before == after
    || (before == Queued && after == Downloading)
    || (before == Downloading && (after == Done || after == Failed))
  }

  /** Every row of `s` keeps its item and moves along an allowed label
      change in `t`; rows are never removed. */
  ghost predicate Advances(s: QState, t: QState)
    requires |s.status| == |s.items| && |t.status| == |t.items|
  {
    && |s.items| <= |t.items|
    && t.items[..|s.items|] == s.items
    && (forall i :: 0 <= i < |s.items| ==> Allowed(s.status[i], t.status[i]))
  }

  lemma EmptyValid()
    ensures Valid(Empty())
    ensures Empty().items == [] && Empty().history == []
  {
  }

  /** The queue never lets two rows be Downloading at once. */
  lemma AtMostOneDownloading(s: QState, i: nat, j: nat)
    requires Valid(s)
    requires i < |s.items| && j < |s.items|
    requires s.status[i] == Downloading && s.status[j] == Downloading
    ensures i == j
  {
  }

  /** `process_next_download` does nothing while a download runs or when
      the queue is empty; otherwise it starts the oldest waiting item, takes
      it off the head of the queue and changes no other row. */
  lemma ProcessNextFifo(s: QState)
    requires |s.status| == |s.items|
    requires forall k :: 0 <= k < |s.queue| ==> s.queue[k] < |s.status|
    ensures s.isDownloading || s.queue == [] ==> ProcessNextSpec(s) == s
    ensures !s.isDownloading && s.queue != [] ==>
      && ProcessNextSpec(s).active == Some(s.queue[0])
      && ProcessNextSpec(s).isDownloading
      && ProcessNextSpec(s).queue == s.queue[1..]
      && ProcessNextSpec(s).status[s.queue[0]] == Downloading
      && (forall i :: 0 <= i < |s.status| && i != s.queue[0] ==> ProcessNextSpec(s).status[i] == s.status[i])
    ensures ProcessNextSpec(s).items == s.items && ProcessNextSpec(s).history == s.history
  {
  }

  lemma ProcessNextValid(s: QState)
    requires Coherent(s)
    ensures Valid(ProcessNextSpec(s))
    ensures Advances(s, ProcessNextSpec(s))
  {
    if !s.isDownloading && s.queue != [] {
      var t := ProcessNextSpec(s);
      var h := s.queue[0];
      forall k | 0 <= k < |t.queue|
        ensures t.queue[k] < |t.items| && t.status[t.queue[k]] == Queued
      {
        assert t.queue[k] == s.queue[k + 1];
        assert s.queue[0] < s.queue[k + 1];
      }
      forall i | 0 <= i < |t.items| && t.status[i] == Queued
        ensures i in t.queue
      {
        assert i != h && s.status[i] == Queued;
        assert i in s.queue;
        var k :| 0 <= k < |s.queue| && s.queue[k] == i;
        assert k != 0;
        assert t.queue[k - 1] == i;
      }
    }
  }

  /** Adding a Queued row at the tail keeps the state coherent. */
  lemma PushCoherent(s: QState, it: Item)
    requires Coherent(s)
    ensures Coherent(s.(items := s.items + [it], status := s.status + [Queued], queue := s.queue + [|s.items|]))
  {
    var u := s.(items := s.items + [it], status := s.status + [Queued], queue := s.queue + [|s.items|]);
    forall k | 0 <= k < |u.queue|
      ensures u.queue[k] < |u.items| && u.status[u.queue[k]] == Queued
    {
      if k < |s.queue| {
        assert u.queue[k] == s.queue[k];
      }
    }
    forall i | 0 <= i < |u.items| && u.status[i] == Queued
      ensures i in u.queue
    {
      if i < |s.items| {
        assert i in s.queue;
      } else {
        assert u.queue[|s.queue|] == i;
      }
    }
  }

  /** `enqueue_download` keeps the invariant, adds exactly one row holding
      the item, and places its id at the tail of the queue; when no download
      was running the new item starts at once. */
  lemma EnqueueValid(s: QState, it: Item)
    requires Valid(s)
    ensures Valid(EnqueueSpec(s, it))
    ensures Advances(s, EnqueueSpec(s, it))
    ensures EnqueueSpec(s, it).items == s.items + [it]
    ensures EnqueueSpec(s, it).history == s.history
    ensures s.isDownloading ==>
      EnqueueSpec(s, it).queue == s.queue + [|s.items|] && EnqueueSpec(s, it).status[|s.items|] == Queued
        && EnqueueSpec(s, it).active == s.active
    ensures !s.isDownloading ==>
      EnqueueSpec(s, it).queue == [] && EnqueueSpec(s, it).active == Some(|s.items|)
        && EnqueueSpec(s, it).status[|s.items|] == Downloading
  {
    var u := s.(items := s.items + [it], status := s.status + [Queued], queue := s.queue + [|s.items|]);
    PushCoherent(s, it);
    ProcessNextValid(u);
  }

  /** `finish` keeps the invariant, marks the row it was scheduled for Done
      on success and Failed otherwise, records a history row only on
      success, and then starts the next waiting item if there is one. */
  lemma FinishValid(s: QState, success: bool, dest: Option<string>)
    requires Valid(s) && s.active.Some?
    ensures Valid(FinishSpec(s, success, dest))
    ensures Advances(s, FinishSpec(s, success, dest))
    ensures FinishSpec(s, success, dest).items == s.items
    ensures FinishSpec(s, success, dest).status[s.active.value] == (if success then Done else Failed)
    ensures success ==> FinishSpec(s, success, dest).history == s.history + [HistoryEntry(s.items[s.active.value].title, dest)]
    ensures !success ==> FinishSpec(s, success, dest).history == s.history
    ensures s.queue == [] ==> !FinishSpec(s, success, dest).isDownloading
    ensures s.queue != [] ==> FinishSpec(s, success, dest).active == Some(s.queue[0])
  {
    var id := s.active.value;
    var u := s.(
      status := s.status[id := if success then Done else Failed],
      history := if success then s.history + [HistoryEntry(s.items[id].title, dest)] else s.history,
      isDownloading := false,
      active := None);
    forall k | 0 <= k < |u.queue|
      ensures u.queue[k] < |u.items| && u.status[u.queue[k]] == Queued
    {
      assert s.status[s.queue[k]] == Queued;
    }
    ProcessNextValid(u);
  }

  /** The queue as the window holds it: the fields that
      `enqueue_download`, `process_next_download` and `finish` update. */
  class Queue {
    var items: seq<Item>
    var status: seq<Status>
    var queue: seq<nat>
    var isDownloading: bool
    var active: Option<nat>
    var history: seq<HistoryEntry>

    function State(): QState
      reads this
    {
      QState(items, status, queue, isDownloading, active, history)
    }

    ghost predicate Ok()
      reads this
    {
      Valid(State())
    }

    ghost predicate Consistent()
      reads this
    {
      Coherent(State())
    }

    constructor ()
      ensures State() == Empty() && Ok()
    {
      items, status, queue := [], [], [];
      isDownloading, active, history := false, None, [];
    }

    /** `process_next_download`. */
    method ProcessNext()
      requires Consistent()
      modifies this
      ensures State() == ProcessNextSpec(old(State())) && Ok()
    {
      ProcessNextValid(State());
      if isDownloading {
        return;
      }
      if queue == [] {
        return;
      }
      var id := queue[0];
      queue := queue[1..];
      isDownloading := true;
      active := Some(id);
      status := status[id := Downloading];
    }

    /** `enqueue_download`. */
    method Enqueue(it: Item)
      requires Ok()
      modifies this
      ensures State() == EnqueueSpec(old(State()), it) && Ok()
    {
      EnqueueValid(State(), it);
      var id := |items|;
      items := items + [it];
      status := status + [Queued];
      queue := queue + [id];
      ProcessNext();
    }

    /** The `finish` callback of the running download. */
    method Finish(success: bool, dest: Option<string>)
      requires Ok() && active.Some?
      modifies this
      ensures State() == FinishSpec(old(State()), success, dest) && Ok()
    {
      FinishValid(State(), success, dest);
      var id := active.value;
      status := status[id := if success then Done else Failed];
      if success {
        history := history + [HistoryEntry(items[id].title, dest)];
      }
      isDownloading := false;
      active := None;
      ProcessNext();
    }
  }
}
