/** The logger with put, flush and compression jobs as atomic operations, on values: what
    each operation does to the slots and to the files, and what whole runs keep. */
module LoggerModel {
  import opened LogFiles
  import opened Streams
  import opened Wrappers

  /** A clean slot is None, a dirty one holds its message. The active file has revision
      `cur`; older revisions lie on disk as plain files, as archives, or as both. `queue` and
      `running` are this logger's compression jobs, `jobs` the count that stop waits for. */
  datatype Logger = Logger(
    slots: seq<Option<string>>,
    cursor: nat,
    active: string,
    closed: map<nat, string>,
    archived: map<nat, string>,
    cur: nat,
    min: nat,
    queue: seq<nat>,
    running: Option<nat>,
    jobs: int,
    limit: nat,
    maxFiles: nat,
    managed: bool)

  // Operations.

  /** The slots in the order a flush from `start` visits them. */
  function Rotated(slots: seq<Option<string>>, start: nat): (r: seq<Option<string>>)
    requires start <= |slots|
    ensures |r| == |slots|
  {
    slots[start..] + slots[..start]
  }

  function Dirty(slots: seq<Option<string>>): seq<string> {
    if slots == [] then []
    else
      var front, last := slots[..|slots| - 1], slots[|slots| - 1];
      if last.Some? then Dirty(front) + [last.value] else Dirty(front)
  }

  function AllClean(n: nat): seq<Option<string>> {
    seq(n, i => None)
  }

  /** Close the active file, open the next revision for appending, queue the closed one. */
  function NextRevision(s: Logger): Logger {
    var next := s.cur + 1;
    s.(closed := s.closed[s.cur := s.active] - {next},
       active := if next in s.closed then s.closed[next] else "",
       cur := next,
       queue := if s.managed then s.queue + [s.cur] else s.queue,
       jobs := if s.managed then s.jobs + 1 else s.jobs)
  }

  function Flush(s: Logger, start: nat): Logger
    requires start <= |s.slots|
  {
    var r := s.(slots := AllClean(|s.slots|), active := s.active + Flatten(Dirty(Rotated(s.slots, start))));
    if RotationDue(s.limit, |r.active|) then NextRevision(r) else r
  }

  function Put(s: Logger, msg: string): Logger
    requires s.cursor < |s.slots|
  {
    var i := s.cursor;
    var r := s.(cursor := (i + 1) % |s.slots|);
    var r := if r.slots[i].Some? then Flush(r, i) else r;
    r.(slots := r.slots[i := Some(Stored(msg))])
  }

  function FlushAll(s: Logger): Logger
    requires s.cursor < |s.slots|
  {
    Flush(s, s.cursor)
  }

  /** The compression worker takes the oldest queued job. */
  function TakeJob(s: Logger): Logger {
    if s.running.None? && s.queue != [] then s.(running := Some(s.queue[0]), queue := s.queue[1..]) else s
  }

  function Archive(s: Logger, f: nat): Logger {
    if f in s.closed then s.(archived := s.archived[f := s.closed[f]], closed := s.closed - {f}) else s
  }

  /** The files but for the revisions from `from` up to and including `upto`. */
  function Without(files: map<nat, string>, from: nat, upto: nat): map<nat, string> {
    map r | r in files && !(from <= r <= upto) :: files[r]
  }

  /** Remove every revision from `min` up to and including `upto`, in both forms. */
  function Prune(s: Logger, upto: nat): Logger {
    s.(closed := Without(s.closed, s.min, upto),
       archived := Without(s.archived, s.min, upto),
       min := if s.min <= upto then upto + 1 else s.min)
  }

  function Compress(s: Logger, f: nat): Logger {
    var r := Archive(s, f);
    var r := if s.maxFiles != 0 && f >= s.maxFiles then Prune(r, f - s.maxFiles) else r;
    r.(jobs := s.jobs - 1)
  }

  function FinishJob(s: Logger): Logger {
    if s.running.Some? then Compress(s, s.running.value).(running := None) else s
  }

  // What every operation keeps.

  /** The dirty slots form one circular run that ends just before the cursor. */
  predicate CleanThenDirty(slots: seq<Option<string>>) {
    forall i, j :: 0 <= i < j < |slots| && slots[i].Some? ==> slots[j].Some?
  }

  predicate RingOk(slots: seq<Option<string>>, cursor: nat) {
    && cursor < |slots|
    && CleanThenDirty(Rotated(slots, cursor))
    && (forall i :: 0 <= i < |slots| && slots[i].Some? ==> |slots[i].value| <= MSG_SIZE)
  }

  /** The closed revisions are exactly those from `min` up to the active one. */
  ghost predicate FilesOk(closed: map<nat, string>, archived: map<nat, string>, min: nat, cur: nat) {
    && min <= cur
    && (forall r: nat :: r in closed || r in archived ==> min <= r < cur)
    && (forall r: nat :: min <= r < cur ==> r in closed || r in archived)
  }

  /** Jobs are in revision order and name plain files. */
  predicate JobsOk(closed: map<nat, string>, queue: seq<nat>, running: Option<nat>, jobs: int) {
    && jobs == |queue| + (if running.Some? then 1 else 0)
    && (forall k :: 0 <= k < |queue| ==> queue[k] in closed)
    && (forall j, k :: 0 <= j < k < |queue| ==> queue[j] < queue[k])
    && (running.Some? ==> running.value in closed)
    && (forall k :: 0 <= k < |queue| && running.Some? ==> running.value < queue[k])
  }

  ghost predicate Sound(s: Logger) {
    && RingOk(s.slots, s.cursor)
    && FilesOk(s.closed, s.archived, s.min, s.cur)
    && JobsOk(s.closed, s.queue, s.running, s.jobs)
  }

  lemma NextRevisionKeepsSound(s: Logger)
    requires FilesOk(s.closed, s.archived, s.min, s.cur) && JobsOk(s.closed, s.queue, s.running, s.jobs)
    ensures var r := NextRevision(s);
            && FilesOk(r.closed, r.archived, r.min, r.cur) && JobsOk(r.closed, r.queue, r.running, r.jobs)
            && r.closed == s.closed[s.cur := s.active] && r.active == ""
  {
    assert s.cur !in s.closed && s.cur + 1 !in s.closed;
  }

  lemma FlushKeepsSound(s: Logger, start: nat)
    requires start < |s.slots| && s.cursor < |s.slots|
    requires FilesOk(s.closed, s.archived, s.min, s.cur) && JobsOk(s.closed, s.queue, s.running, s.jobs)
    ensures Sound(Flush(s, start))
    ensures Flush(s, start).slots == AllClean(|s.slots|) && Flush(s, start).cursor == s.cursor
  {
    NextRevisionKeepsSound(
      s.(slots := AllClean(|s.slots|), active := s.active + Flatten(Dirty(Rotated(s.slots, start)))));
  }

  lemma NextIndex(i: nat, n: nat)
    requires i < n
    ensures (i + 1) % n == if i + 1 < n then i + 1 else 0
  {
  }

  /** Seen from the cursor, a put drops the first slot and appends its own. */
  lemma PutRotates(slots: seq<Option<string>>, i: nat, x: Option<string>)
    requires i < |slots|
    ensures Rotated(slots[i := x], (i + 1) % |slots|) == Rotated(slots, i)[1..] + [x]
  {
    var n := |slots|;
    NextIndex(i, n);
    if i + 1 < n {
      assert slots[i := x][i + 1..] == slots[i + 1..];
      assert slots[i := x][..i + 1] == slots[..i] + [x];
    } else {
      assert slots[i := x] == slots[..i] + [x];
    }
  }

  lemma WriteKeepsRing(slots: seq<Option<string>>, i: nat, msg: string)
    requires i < |slots| && slots[i].None? && |msg| <= MSG_SIZE
    requires CleanThenDirty(Rotated(slots, i))
    requires forall k :: 0 <= k < |slots| && slots[k].Some? ==> |slots[k].value| <= MSG_SIZE
    ensures RingOk(slots[i := Some(msg)], (i + 1) % |slots|)
  {
    PutRotates(slots, i, Some(msg));
  }

  lemma PutKeepsSound(s: Logger, msg: string)
    requires Sound(s)
    ensures Sound(Put(s, msg))
  {
    var i := s.cursor;
    var moved := s.(cursor := (i + 1) % |s.slots|);
    FlushKeepsSound(moved, i);
    var r := if s.slots[i].Some? then Flush(moved, i) else moved;
    assert CleanThenDirty(Rotated(r.slots, i));
    assert FilesOk(r.closed, r.archived, r.min, r.cur) && JobsOk(r.closed, r.queue, r.running, r.jobs);
    hide FilesOk, JobsOk, Flush, CleanThenDirty;
    WriteKeepsRing(r.slots, i, Stored(msg));
    assert Put(s, msg) == r.(slots := r.slots[i := Some(Stored(msg))]);
  }

  lemma TakeJobKeepsSound(s: Logger)
    requires Sound(s)
    ensures Sound(TakeJob(s))
  {
  }

  lemma FinishJobKeepsSound(s: Logger)
    requires Sound(s)
    ensures Sound(FinishJob(s))
  {
    if s.running.Some? {
      var f := s.running.value;
      var a := Archive(s, f);
      assert f !in s.queue;
      assert FilesOk(a.closed, a.archived, a.min, a.cur);
      hide RingOk;
    }
  }

  // The files and the ring as one stream.

  /** A closed revision's bytes; the plain form wins while both exist. */
  function Bytes(closed: map<nat, string>, archived: map<nat, string>, r: nat): string {
    if r in closed then closed[r] else if r in archived then archived[r] else ""
  }

  /** Revisions lo up to, not including, hi, one after the other. */
  function FilesFrom(closed: map<nat, string>, archived: map<nat, string>, lo: nat, hi: nat): string
    decreases hi
  {
    if hi <= lo then "" else FilesFrom(closed, archived, lo, hi - 1) + Bytes(closed, archived, hi - 1)
  }

  /** The log files in revision order, then the dirty slots read circularly from slot `at`. */
  function StreamAt(s: Logger, at: nat): string
    requires at <= |s.slots|
  {
    FilesFrom(s.closed, s.archived, s.min, s.cur) + s.active + Flatten(Dirty(Rotated(s.slots, at)))
  }

  function Stream(s: Logger): string
    requires s.cursor < |s.slots|
  {
    StreamAt(s, s.cursor)
  }

  lemma {:induction false} FilesFromSame(closed: map<nat, string>, archived: map<nat, string>,
      closed': map<nat, string>, archived': map<nat, string>, lo: nat, hi: nat)
    requires forall r: nat :: lo <= r < hi ==> Bytes(closed, archived, r) == Bytes(closed', archived', r)
    ensures FilesFrom(closed, archived, lo, hi) == FilesFrom(closed', archived', lo, hi)
    decreases hi
  {
    if hi > lo {
      FilesFromSame(closed, archived, closed', archived', lo, hi - 1);
    }
  }

  lemma {:induction false} FilesFromSplit(closed: map<nat, string>, archived: map<nat, string>, lo: nat, mid: nat, hi: nat)
    requires lo <= mid <= hi
    ensures FilesFrom(closed, archived, lo, hi) == FilesFrom(closed, archived, lo, mid) + FilesFrom(closed, archived, mid, hi)
    decreases hi
  {
    if mid < hi {
      FilesFromSplit(closed, archived, lo, mid, hi - 1);
    }
  }

  lemma {:induction false} DirtyAppend(a: seq<Option<string>>, b: seq<Option<string>>)
    ensures Dirty(a + b) == Dirty(a) + Dirty(b)
  {
    if b == [] {
      assert a + b == a;
    } else {
      var front, last := b[..|b| - 1], b[|b| - 1];
      assert (a + b)[..|a + b| - 1] == a + front;
      DirtyAppend(a, front);
    }
  }

  lemma {:induction false} DirtyOfClean(slots: seq<Option<string>>)
    requires forall i :: 0 <= i < |slots| ==> slots[i].None?
    ensures Dirty(slots) == []
  {
    if slots != [] {
      DirtyOfClean(slots[..|slots| - 1]);
    }
  }

  /** A flush in slot order from the cursor moves the ring's part of the stream to the file. */
  lemma FlushKeepsStream(s: Logger, at: nat)
    requires at < |s.slots| && s.cursor < |s.slots|
    requires FilesOk(s.closed, s.archived, s.min, s.cur)
    ensures Stream(Flush(s, at)) == StreamAt(s, at)
  {
    hide Flatten, Dirty, Rotated;
    CleanRingIsEmpty(|s.slots|, s.cursor);
    var r := Flush(s, at);
    var files, ring := FilesFrom(s.closed, s.archived, s.min, s.cur), Flatten(Dirty(Rotated(s.slots, at)));
    Regroup(files, s.active, ring);
    if RotationDue(s.limit, |s.active + ring|) {
      assert s.cur + 1 !in s.closed && s.cur !in s.closed;
      FilesFromSame(s.closed, s.archived, r.closed, r.archived, s.min, s.cur);
      assert FilesFrom(r.closed, r.archived, s.min, r.cur) == files + (s.active + ring);
    }
  }

  lemma CleanRingIsEmpty(n: nat, at: nat)
    requires at <= n
    ensures Flatten(Dirty(Rotated(AllClean(n), at))) == ""
  {
    DirtyOfClean(Rotated(AllClean(n), at));
  }

  lemma {:induction false} DirtyMoves(rot: seq<Option<string>>, msg: string)
    requires rot != [] && rot[0].None?
    ensures Flatten(Dirty(rot[1..] + [Some(msg)])) == Flatten(Dirty(rot)) + msg
  {
    DirtyAppend([rot[0]], rot[1..]);
    assert rot == [rot[0]] + rot[1..];
    DirtyOfClean([rot[0]]);
    DirtyAppend(rot[1..], [Some(msg)]);
    assert Dirty([Some(msg)]) == [msg] by { assert [Some(msg)][..0] == []; }
    assert Dirty(rot) == Dirty(rot[1..]);
    FlattenSnoc(Dirty(rot[1..]), msg);
  }

  lemma WriteExtendsStream(r: Logger, i: nat, msg: string)
    requires i < |r.slots| && r.slots[i].None?
    ensures StreamAt(r.(slots := r.slots[i := Some(msg)]), (i + 1) % |r.slots|) == StreamAt(r, i) + msg
  {
    var rot := Rotated(r.slots, i);
    PutRotates(r.slots, i, Some(msg));
    DirtyMoves(rot, msg);
    hide Flatten, Dirty, FilesFrom;
    assert Flatten(Dirty(Rotated(r.slots[i := Some(msg)], (i + 1) % |r.slots|))) == Flatten(Dirty(rot)) + msg;
  }

  lemma FlushedStream(moved: Logger, i: nat)
    requires i < |moved.slots| && moved.cursor < |moved.slots|
    requires FilesOk(moved.closed, moved.archived, moved.min, moved.cur)
    ensures |Flush(moved, i).slots| == |moved.slots| && Flush(moved, i).slots[i].None?
    ensures StreamAt(Flush(moved, i), i) == StreamAt(moved, i)
  {
    var r := Flush(moved, i);
    FlushKeepsStream(moved, i);
    assert r.slots == AllClean(|moved.slots|);
    DirtyOfClean(Rotated(r.slots, r.cursor));
    DirtyOfClean(Rotated(r.slots, i));
  }

  lemma PutExtendsStream(s: Logger, msg: string)
    requires Sound(s)
    ensures Put(s, msg).cursor < |Put(s, msg).slots|
    ensures Stream(Put(s, msg)) == Stream(s) + Stored(msg)
  {
    var i := s.cursor;
    var moved := s.(cursor := (i + 1) % |s.slots|);
    if s.slots[i].Some? {
      FlushedStream(moved, i);
    }
    var r := if s.slots[i].Some? then Flush(moved, i) else moved;
    assert r.cursor == moved.cursor && r.slots[i].None?;
    WriteExtendsStream(r, i, Stored(msg));
    assert Put(s, msg) == r.(slots := r.slots[i := Some(Stored(msg))]);
    assert StreamAt(moved, i) == Stream(s);
    hide Flush, FilesOk, JobsOk, RingOk, FilesFrom, Stored, Flatten, Dirty, Rotated;
  }

  /** A job leaves the bytes of every revision it does not prune as they were. */
  lemma FinishJobKeepsBytes(s: Logger, q: nat)
    requires JobsOk(s.closed, s.queue, s.running, s.jobs) && FinishJob(s).min <= q
    ensures Bytes(FinishJob(s).closed, FinishJob(s).archived, q) == Bytes(s.closed, s.archived, q)
  {
    hide JobsOk;
    if s.running.Some? {
      var a := Archive(s, s.running.value);
      assert Bytes(a.closed, a.archived, q) == Bytes(s.closed, s.archived, q);
    }
  }

  /** A job takes the pruned revisions off the front of the stream and changes nothing else. */
  lemma FinishJobTrimsStream(s: Logger)
    requires Sound(s)
    ensures FinishJob(s).cursor < |FinishJob(s).slots| && s.min <= FinishJob(s).min <= s.cur
    ensures Stream(s) == FilesFrom(s.closed, s.archived, s.min, FinishJob(s).min) + Stream(FinishJob(s))
  {
    FinishJobKeepsSound(s);
    var r := FinishJob(s);
    assert r.cur == s.cur && r.active == s.active && r.slots == s.slots && r.cursor == s.cursor;
    forall q: nat | r.min <= q ensures Bytes(r.closed, r.archived, q) == Bytes(s.closed, s.archived, q) {
      FinishJobKeepsBytes(s, q);
    }
    hide FinishJob, Bytes, JobsOk, RingOk;
    assert s.min <= r.min;
    hide FilesOk;
    FilesFromSplit(s.closed, s.archived, s.min, r.min, s.cur);
    FilesFromSame(s.closed, s.archived, r.closed, r.archived, r.min, s.cur);
    var cut, kept := FilesFrom(s.closed, s.archived, s.min, r.min), FilesFrom(s.closed, s.archived, r.min, s.cur);
    hide FilesFrom, Flatten, Dirty;
    Regroup(cut, kept, s.active);
    Regroup(cut, kept + s.active, Flatten(Dirty(Rotated(s.slots, s.cursor))));
  }

  // Runs.

  datatype Event = PutEvent(msg: string) | FlushEvent | TakeEvent | FinishEvent

  /** A run so far: the logger, the messages put, the bytes pruned away, the last job done. */
  datatype Run = Run(log: Logger, puts: seq<string>, gone: string, done: Option<nat>)

  function Step(r: Run, e: Event): Run
    requires Sound(r.log)
  {
    match e
    case PutEvent(msg) => r.(log := Put(r.log, msg), puts := r.puts + [Stored(msg)])
    case FlushEvent => r.(log := FlushAll(r.log))
    case TakeEvent => r.(log := TakeJob(r.log))
    case FinishEvent =>
      var after := FinishJob(r.log);
      r.(log := after,
         gone := r.gone + FilesFrom(r.log.closed, r.log.archived, r.log.min, after.min),
         done := if r.log.running.Some? then r.log.running else r.done)
  }

  lemma StepKeepsSound(r: Run, e: Event)
    requires Sound(r.log)
    ensures Sound(Step(r, e).log)
  {
    match e
    case PutEvent(msg) => PutKeepsSound(r.log, msg);
    case FlushEvent => FlushKeepsSound(r.log, r.log.cursor);
    case TakeEvent => TakeJobKeepsSound(r.log);
    case FinishEvent => FinishJobKeepsSound(r.log);
  }

  function Exec(r: Run, events: seq<Event>): (r': Run)
    requires Sound(r.log)
    ensures Sound(r'.log)
    decreases |events|
  {
    if events == [] then r
    else
      StepKeepsSound(r, events[0]);
      Exec(Step(r, events[0]), events[1..])
  }

  function Started(s: Logger): Run {
    Run(s, [], "", None)
  }

  lemma StepKeepsStream(r: Run, e: Event, base: string)
    requires Sound(r.log) && base + Flatten(r.puts) == r.gone + Stream(r.log)
    ensures Sound(Step(r, e).log)
    ensures base + Flatten(Step(r, e).puts) == Step(r, e).gone + Stream(Step(r, e).log)
  {
    StepKeepsSound(r, e);
    match e
    case PutEvent(msg) => PutStepKeepsStream(r, msg, base);
    case FlushEvent => FlushKeepsStream(r.log, r.log.cursor);
    case TakeEvent =>
    case FinishEvent => FinishStepKeepsStream(r, base);
  }

  lemma FinishStepKeepsStream(r: Run, base: string)
    requires Sound(r.log) && base + Flatten(r.puts) == r.gone + Stream(r.log)
    ensures Sound(Step(r, FinishEvent).log)
    ensures base + Flatten(r.puts) == Step(r, FinishEvent).gone + Stream(Step(r, FinishEvent).log)
  {
    var t := FinishJob(r.log);
    var cut := FilesFrom(r.log.closed, r.log.archived, r.log.min, t.min);
    assert Step(r, FinishEvent).gone == r.gone + cut && Step(r, FinishEvent).log == t;
    FinishJobKeepsSound(r.log);
    FinishJobTrimsStream(r.log);
    hide Step, Stream, FinishJob, FilesFrom, Flatten, FilesOk, JobsOk;
    Regroup(r.gone, cut, Stream(t));
  }

  lemma PutStepKeepsStream(r: Run, msg: string, base: string)
    requires Sound(r.log) && base + Flatten(r.puts) == r.gone + Stream(r.log)
    ensures Sound(Put(r.log, msg))
    ensures base + Flatten(r.puts + [Stored(msg)]) == r.gone + Stream(Put(r.log, msg))
  {
    PutKeepsSound(r.log, msg);
    PutExtendsStream(r.log, msg);
    hide Stream, Put, Flatten, Stored, Sound;
    FlattenSnoc(r.puts, Stored(msg));
    Regroup(base, Flatten(r.puts), Stored(msg));
  }

  lemma {:induction false} ExecKeepsStream(r: Run, events: seq<Event>, base: string)
    requires Sound(r.log) && base + Flatten(r.puts) == r.gone + Stream(r.log)
    ensures base + Flatten(Exec(r, events).puts) == Exec(r, events).gone + Stream(Exec(r, events).log)
    decreases |events|
  {
    hide Stream, Flatten, Sound, Step;
    if events != [] {
      StepKeepsStream(r, events[0], base);
      ExecKeepsStream(Step(r, events[0]), events[1..], base);
    }
  }

  /** The ring refines a FIFO over every run: what compression pruned, the files in revision
      order and the dirty slots from the cursor together are the initial contents followed by
      every message put, in order; and the dirty slots are one run ending before the cursor. */
  lemma {:induction false} RingRefinesFifo(s: Logger, events: seq<Event>)
    requires Sound(s)
    ensures
      var r := Exec(Started(s), events);
      && r.gone + Stream(r.log) == Stream(s) + Flatten(r.puts)
      && CleanThenDirty(Rotated(r.log.slots, r.log.cursor))
  {
    ExecKeepsStream(Started(s), events, Stream(s));
  }

  // File sizes.

  /** A closed file is longer than the limit for every size exactly when the limit, read as a
      signed number, is still itself. From 2^63 on it is negative and any flush closes. */
  lemma RotationMeetsLimit(limit: nat)
    requires limit < 0x1_0000_0000_0000_0000
    ensures (forall size: nat :: RotationDue(limit, size) ==> size > limit) <==> limit < 0x8000_0000_0000_0000
  {
    if limit >= 0x8000_0000_0000_0000 {
      assert RotationDue(limit, 0);
    }
  }

  lemma {:induction false} DirtyBytesBounded(slots: seq<Option<string>>)
    requires forall i :: 0 <= i < |slots| && slots[i].Some? ==> |slots[i].value| <= MSG_SIZE
    ensures |Flatten(Dirty(slots))| <= |slots| * MSG_SIZE
  {
    if slots != [] {
      var front, last := slots[..|slots| - 1], slots[|slots| - 1];
      DirtyBytesBounded(front);
      if last.Some? {
        FlattenSnoc(Dirty(front), last.value);
      }
    }
  }

  /** The active file is within the limit; files closed since revision `from` exceed it by at
      most one ring's worth of messages. */
  ghost predicate SizesOk(s: Logger, from: nat) {
    && |s.active| <= s.limit
    && forall r: nat | from <= r < s.cur && s.min <= r
         :: s.limit < |Bytes(s.closed, s.archived, r)| <= s.limit + |s.slots| * MSG_SIZE
  }

  lemma FlushKeepsSizes(s: Logger, at: nat, from: nat)
    requires at < |s.slots| && SizesOk(s, from) && 0 < s.limit < 0x8000_0000_0000_0000
    requires FilesOk(s.closed, s.archived, s.min, s.cur)
    requires forall i :: 0 <= i < |s.slots| && s.slots[i].Some? ==> |s.slots[i].value| <= MSG_SIZE
    ensures SizesOk(Flush(s, at), from)
  {
    var rot := Rotated(s.slots, at);
    DirtyBytesBounded(rot);
    var r := Flush(s, at);
    assert s.cur !in s.closed && s.cur + 1 !in s.closed;
    hide FilesOk, Flatten, Dirty;
    forall q: nat | from <= q < r.cur && r.min <= q
      ensures r.limit < |Bytes(r.closed, r.archived, q)| <= r.limit + |r.slots| * MSG_SIZE
    {
      if q != s.cur {
        assert Bytes(r.closed, r.archived, q) == Bytes(s.closed, s.archived, q);
      }
    }
  }

  lemma PutKeepsSizes(s: Logger, msg: string, from: nat)
    requires Sound(s) && SizesOk(s, from) && 0 < s.limit < 0x8000_0000_0000_0000
    ensures SizesOk(Put(s, msg), from)
  {
    var moved := s.(cursor := (s.cursor + 1) % |s.slots|);
    var r := if s.slots[s.cursor].Some? then Flush(moved, s.cursor) else moved;
    if s.slots[s.cursor].Some? {
      FlushKeepsSizes(moved, s.cursor, from);
    }
    assert SizesOk(r, from);
    assert Put(s, msg) == r.(slots := r.slots[s.cursor := Some(Stored(msg))]);
    hide FilesOk, JobsOk, RingOk, Flush;
  }

  lemma FinishKeepsSizes(s: Logger, from: nat)
    requires Sound(s) && SizesOk(s, from)
    ensures SizesOk(FinishJob(s), from)
  {
    FinishJobTrimsStream(s);
    var after := FinishJob(s);
    assert after.active == s.active && after.limit == s.limit && after.cur == s.cur && after.slots == s.slots;
    forall q: nat | after.min <= q ensures Bytes(after.closed, after.archived, q) == Bytes(s.closed, s.archived, q) {
      FinishJobKeepsBytes(s, q);
    }
    hide FilesOk, JobsOk, RingOk, Bytes, FinishJob;
  }

  lemma StepKeepsSizes(r: Run, e: Event, from: nat)
    requires Sound(r.log) && SizesOk(r.log, from) && 0 < r.log.limit < 0x8000_0000_0000_0000
    ensures SizesOk(Step(r, e).log, from)
  {
    match e
    case PutEvent(msg) => PutKeepsSizes(r.log, msg, from);
    case FlushEvent => FlushKeepsSizes(r.log, r.log.cursor, from);
    case TakeEvent =>
    case FinishEvent => FinishKeepsSizes(r.log, from);
  }

  lemma {:induction false} ExecKeepsSizes(r: Run, events: seq<Event>, from: nat)
    requires Sound(r.log) && SizesOk(r.log, from) && 0 < r.log.limit < 0x8000_0000_0000_0000
    ensures SizesOk(Exec(r, events).log, from)
    decreases |events|
  {
    if events != [] {
      hide SizesOk;
      StepKeepsSizes(r, events[0], from);
      StepKeepsSound(r, events[0]);
      hide Sound;
      ExecKeepsSizes(Step(r, events[0]), events[1..], from);
    }
  }

  /** Whatever the run, a file closed during it ends more than L and at most L plus
      slots * 4096 bytes long, and the active file never stays above L. */
  lemma {:induction false} FileSizesBounded(s: Logger, events: seq<Event>)
    requires Sound(s) && 0 < s.limit < 0x8000_0000_0000_0000 && |s.active| <= s.limit
    ensures
      var t := Exec(Started(s), events).log;
      && |t.active| <= s.limit
      && forall r: nat | s.cur <= r < t.cur && t.min <= r
           :: s.limit < |Bytes(t.closed, t.archived, r)| <= s.limit + |s.slots| * 4096
  {
    ExecKeepsSizes(Started(s), events, s.cur);
    ExecKeepsShape(Started(s), events);
  }

  lemma StepKeepsShape(r: Run, e: Event)
    requires Sound(r.log)
    ensures var t := Step(r, e).log;
            && t.limit == r.log.limit && t.maxFiles == r.log.maxFiles && |t.slots| == |r.log.slots|
            && t.min >= r.log.min && t.cur >= r.log.cur
  {
    hide FilesOk, JobsOk;
  }

  lemma {:induction false} ExecKeepsShape(r: Run, events: seq<Event>)
    requires Sound(r.log)
    ensures var t := Exec(r, events).log;
            && t.limit == r.log.limit && t.maxFiles == r.log.maxFiles && |t.slots| == |r.log.slots|
            && t.min >= r.log.min && t.cur >= r.log.cur
    decreases |events|
  {
    if events != [] {
      StepKeepsSound(r, events[0]);
      StepKeepsShape(r, events[0]);
      hide Sound, Step;
      ExecKeepsShape(Step(r, events[0]), events[1..]);
    }
  }

  // Retention.

  /** Jobs still to come are for later revisions than the last one done, and `min` is where
      that job left it. */
  ghost predicate RetentionOk(r: Run, first: nat) {
    && (r.done.Some? && r.log.running.Some? ==> r.done.value < r.log.running.value)
    && (r.done.Some? ==> forall k :: 0 <= k < |r.log.queue| ==> r.done.value < r.log.queue[k])
    && (r.done.Some? ==> r.done.value < r.log.cur)
    && r.log.min == Oldest(first, r.log.maxFiles, r.done)
  }

  /** The oldest revision kept: with a limit of m files, none at or below f - m after job f. */
  function Oldest(first: nat, m: nat, done: Option<nat>): nat {
    if m != 0 && done.Some? && done.value + 1 > first + m then done.value + 1 - m else first
  }

  lemma StepKeepsRetention(r: Run, e: Event, first: nat)
    requires Sound(r.log) && RetentionOk(r, first)
    ensures RetentionOk(Step(r, e), first)
  {
    hide Flush, FilesFrom, Stored, Without, CleanThenDirty;
    match e
    case PutEvent(msg) =>
      FlushKeepsRetention(r.(log := r.log.(cursor := (r.log.cursor + 1) % |r.log.slots|)), r.log.cursor);
    case FlushEvent => FlushKeepsRetention(r, r.log.cursor);
    case TakeEvent =>
    case FinishEvent =>
  }

  /** A flush moves nothing but the active revision and the end of the queue. */
  lemma FlushKeepsRetention(r: Run, at: nat)
    requires at <= |r.log.slots|
    ensures var s := Flush(r.log, at);
      && s.min == r.log.min && s.maxFiles == r.log.maxFiles && s.running == r.log.running
      && r.log.cur <= s.cur && r.log.queue <= s.queue
      && (s.queue == r.log.queue || s.queue == r.log.queue + [r.log.cur])
  {
    hide Flatten, Dirty, Rotated;
  }

  lemma {:induction false} ExecKeepsRetention(r: Run, events: seq<Event>, first: nat)
    requires Sound(r.log) && RetentionOk(r, first)
    ensures RetentionOk(Exec(r, events), first)
    decreases |events|
  {
    if events != [] {
      hide RetentionOk;
      StepKeepsRetention(r, events[0], first);
      StepKeepsSound(r, events[0]);
      hide Sound;
      ExecKeepsRetention(Step(r, events[0]), events[1..], first);
    }
  }

  /** The revision's job is queued or running. */
  predicate Awaits(s: Logger, q: nat) {
    q in s.queue || s.running == Some(q)
  }

  /** Every revision closed since `s` has had its job, of which `done` is the last, or awaits it, and
      no plain file is forgotten: one that awaits no job awaited none, and was there, in `s`. Without
      a manager no job is added. */
  ghost predicate JobsCover(t: Logger, done: Option<nat>, s: Logger) {
    && t.managed == s.managed && s.cur <= t.cur
    && (s.managed ==> forall q: nat :: q in t.closed ==> Awaits(t, q) || (q in s.closed && !Awaits(s, q)))
    && (s.managed ==> forall q: nat :: s.cur <= q < t.cur ==> Awaits(t, q) || (done.Some? && q <= done.value))
    && (forall q: nat :: Awaits(t, q) ==> Awaits(s, q) || (s.managed && s.cur <= q))
  }

  lemma NextRevisionKeepsCover(t: Logger, done: Option<nat>, s: Logger)
    requires JobsCover(t, done, s)
    ensures JobsCover(NextRevision(t), done, s)
  {
    var next := NextRevision(t);
    assert forall q: nat :: Awaits(next, q) <==> Awaits(t, q) || (t.managed && q == t.cur);
    assert next.closed.Keys <= t.closed.Keys + {t.cur};
  }

  /** Only the files, the jobs and the manager matter. */
  lemma CoverOnlyNeeds(t: Logger, t': Logger, done: Option<nat>, s: Logger)
    requires JobsCover(t, done, s)
    requires t'.closed == t.closed && t'.queue == t.queue && t'.running == t.running
    requires t'.managed == t.managed && t'.cur == t.cur
    ensures JobsCover(t', done, s)
  {
    assert forall q: nat :: Awaits(t', q) <==> Awaits(t, q);
  }

  lemma FlushKeepsCover(t: Logger, at: nat, done: Option<nat>, s: Logger)
    requires at <= |t.slots| && JobsCover(t, done, s)
    ensures JobsCover(Flush(t, at), done, s)
  {
    hide Flatten, Dirty, Rotated, AllClean, RotationDue, JobsCover, NextRevision;
    var r := t.(slots := AllClean(|t.slots|), active := t.active + Flatten(Dirty(Rotated(t.slots, at))));
    CoverOnlyNeeds(t, r, done, s);
    NextRevisionKeepsCover(r, done, s);
  }

  lemma PutKeepsCover(t: Logger, msg: string, done: Option<nat>, s: Logger)
    requires t.cursor < |t.slots| && JobsCover(t, done, s)
    ensures JobsCover(Put(t, msg), done, s)
  {
    hide Flush, JobsCover;
    var at := t.cursor;
    var moved := t.(cursor := (at + 1) % |t.slots|);
    CoverOnlyNeeds(t, moved, done, s);
    FlushKeepsCover(moved, at, done, s);
    CoverOnlyNeeds(if t.slots[at].Some? then Flush(moved, at) else moved, Put(t, msg), done, s);
  }

  lemma TakeKeepsCover(t: Logger, done: Option<nat>, s: Logger)
    requires JobsCover(t, done, s)
    ensures JobsCover(TakeJob(t), done, s)
  {
    if t.running.None? && t.queue != [] {
      assert t.queue == [t.queue[0]] + t.queue[1..];
    }
    assert forall q: nat :: Awaits(TakeJob(t), q) <==> Awaits(t, q);
  }

  lemma FinishKeepsCover(t: Logger, done: Option<nat>, s: Logger)
    requires t.running.Some? && JobsCover(t, done, s)
    requires done.Some? ==> done.value < t.running.value
    ensures JobsCover(FinishJob(t), t.running, s)
  {
    var after, f := FinishJob(t), t.running.value;
    assert forall q: nat :: Awaits(t, q) <==> Awaits(after, q) || q == f;
    assert after.closed.Keys <= t.closed.Keys - {f};
  }

  lemma StepKeepsCover(r: Run, e: Event, s: Logger, first: nat)
    requires Sound(r.log) && JobsCover(r.log, r.done, s) && RetentionOk(r, first)
    ensures JobsCover(Step(r, e).log, Step(r, e).done, s)
  {
    hide JobsCover, FilesFrom, Flush, Put, TakeJob, Compress, Stored;
    match e
    case PutEvent(msg) => PutKeepsCover(r.log, msg, r.done, s);
    case FlushEvent => FlushKeepsCover(r.log, r.log.cursor, r.done, s);
    case TakeEvent => TakeKeepsCover(r.log, r.done, s);
    case FinishEvent =>
      if r.log.running.Some? {
        FinishKeepsCover(r.log, r.done, s);
      }
  }

  lemma {:induction false} ExecKeepsCover(r: Run, events: seq<Event>, s: Logger, first: nat)
    requires Sound(r.log) && JobsCover(r.log, r.done, s) && RetentionOk(r, first)
    ensures JobsCover(Exec(r, events).log, Exec(r, events).done, s)
    decreases |events|
  {
    if events != [] {
      hide JobsCover, RetentionOk;
      StepKeepsCover(r, events[0], s, first);
      StepKeepsRetention(r, events[0], first);
      StepKeepsSound(r, events[0]);
      hide Sound;
      ExecKeepsCover(Step(r, events[0]), events[1..], s, first);
    }
  }

  /** Whatever the run: once job f is done with a limit of m files, the revisions on disk are
      exactly those from the larger of the first one and f - m + 1 up to the active one, so none
      at or below f - m is left; the count stop waits for is the queued plus the running jobs; and
      with a manager, each revision closed in the run awaits its job exactly until that is done, and
      no plain file that had a job, or that the run closed, is left without one. */
  lemma {:induction false} RetentionOverRuns(s: Logger, events: seq<Event>)
    requires Sound(s)
    ensures
      var r := Exec(Started(s), events);
      var t := r.log;
      && (forall q: nat :: q in t.closed || q in t.archived <==> Oldest(s.min, s.maxFiles, r.done) <= q < t.cur)
      && (s.maxFiles != 0 && r.done.Some? ==>
            forall q: nat :: (q in t.closed || q in t.archived) ==> q + s.maxFiles > r.done.value)
      && (r.done.Some? ==> r.done.value < t.cur)
      && s.min <= t.min == Oldest(s.min, s.maxFiles, r.done)
      && t.min == (if s.maxFiles != 0 && r.done.Some? && r.done.value + 1 > s.min + s.maxFiles
                   then r.done.value + 1 - s.maxFiles else s.min)
      && t.jobs == |t.queue| + (if t.running.Some? then 1 else 0)
      && (s.managed ==> forall q: nat :: q in t.closed ==> Awaits(t, q) || (q in s.closed && !Awaits(s, q)))
      && (s.managed ==> forall q: nat :: s.cur <= q < t.cur ==>
            (Awaits(t, q) <==> r.done.None? || r.done.value < q))
      && (forall q: nat :: Awaits(t, q) ==> Awaits(s, q) || (s.managed && s.cur <= q))
  {
    ExecKeepsRetention(Started(s), events, s.min);
    ExecKeepsShape(Started(s), events);
    ExecKeepsCover(Started(s), events, s, s.min);
    hide Exec, Oldest, RingOk;
  }

  /** n rounds of the compression worker. */
  function WorkerRounds(n: nat): seq<Event> {
    if n == 0 then [] else [TakeEvent, FinishEvent] + WorkerRounds(n - 1)
  }

  lemma {:induction false} ExecTwo(r: Run, a: Event, b: Event, rest: seq<Event>)
    requires Sound(r.log)
    ensures Sound(Step(r, a).log) && Sound(Step(Step(r, a), b).log)
    ensures Exec(r, [a, b] + rest) == Exec(Step(Step(r, a), b), rest)
  {
    hide Step, Sound;
    StepKeepsSound(r, a);
    StepKeepsSound(Step(r, a), b);
    assert ([a, b] + rest)[1..] == [b] + rest;
    assert ([b] + rest)[1..] == rest;
  }

  /** A round does one job, if there is one. */
  lemma RoundDoesOneJob(r: Run)
    requires Sound(r.log)
    ensures Sound(Step(r, TakeEvent).log)
    ensures var t := Step(Step(r, TakeEvent), FinishEvent).log;
      t.running.None? && t.jobs == (if r.log.jobs > 0 then r.log.jobs - 1 else 0) && t.cur == r.log.cur
  {
    StepKeepsSound(r, TakeEvent);
    hide FilesFrom, FilesOk, RingOk, Archive, Without;
  }

  lemma {:induction false} RoundsDoAllJobs(r: Run, n: nat)
    requires Sound(r.log) && n == r.log.jobs
    ensures var t := Exec(r, WorkerRounds(n)).log; t.queue == [] && t.running.None? && t.cur == r.log.cur
    decreases n
  {
    if n > 0 {
      RoundDoesOneJob(r);
      ExecTwo(r, TakeEvent, FinishEvent, WorkerRounds(n - 1));
      hide Step;
      RoundsDoAllJobs(Step(Step(r, TakeEvent), FinishEvent), n - 1);
    }
  }

  lemma {:induction false} ExecAppend(r: Run, a: seq<Event>, b: seq<Event>)
    requires Sound(r.log)
    ensures Exec(r, a + b) == Exec(Exec(r, a), b)
    decreases |a|
  {
    hide Step, Sound;
    if a == [] {
      assert a + b == b;
    } else {
      StepKeepsSound(r, a[0]);
      assert (a + b)[1..] == a[1..] + b;
      ExecAppend(Step(r, a[0]), a[1..], b);
    }
  }

  /** Given as many rounds as there are jobs, the worker catches up after any run: nothing is queued
      or running, every file that had or got a job is an archive only, and once a file was closed at
      most m closed ones are left. */
  lemma {:induction false} WorkerCatchesUp(s: Logger, events: seq<Event>)
    requires Sound(s) && s.managed
    ensures Exec(Started(s), events).log.jobs >= 0
    ensures
      var t := Exec(Started(s), events + WorkerRounds(Exec(Started(s), events).log.jobs)).log;
      && t.cur == Exec(Started(s), events).log.cur
      && t.queue == [] && t.running.None? && t.jobs == 0
      && (forall q: nat :: q in t.closed ==> q in s.closed && !Awaits(s, q))
      && (forall q: nat :: s.cur <= q < t.cur && t.min <= q ==> q in t.archived && q !in t.closed)
      && (s.maxFiles != 0 && s.cur < t.cur ==>
            t.min == if t.cur <= s.min + s.maxFiles then s.min else t.cur - s.maxFiles)
  {
    hide Sound, WorkerRounds, Awaits;
    var r := Exec(Started(s), events);
    JobsAreCounted(r.log);
    ExecAppend(Started(s), events, WorkerRounds(r.log.jobs));
    RoundsDoAllJobs(r, r.log.jobs);
    JobsAreCounted(Exec(r, WorkerRounds(r.log.jobs)).log);
    SettledFiles(s, events + WorkerRounds(r.log.jobs));
  }

  lemma JobsAreCounted(s: Logger)
    requires Sound(s)
    ensures s.jobs == |s.queue| + if s.running.Some? then 1 else 0
  {
  }

  /** With no job left, what a run closed is archived or pruned. */
  lemma {:induction false} SettledFiles(s: Logger, events: seq<Event>)
    requires Sound(s) && s.managed
    requires Exec(Started(s), events).log.queue == [] && Exec(Started(s), events).log.running.None?
    ensures
      var t := Exec(Started(s), events).log;
      && (forall q: nat :: q in t.closed ==> q in s.closed && !Awaits(s, q))
      && (forall q: nat :: s.cur <= q < t.cur && t.min <= q ==> q in t.archived && q !in t.closed)
      && (s.maxFiles != 0 && s.cur < t.cur ==>
            t.min == if t.cur <= s.min + s.maxFiles then s.min else t.cur - s.maxFiles)
  {
    RetentionOverRuns(s, events);
    var t := Exec(Started(s), events).log;
    assert forall q: nat :: q in s.closed ==> q < s.cur;
    assert forall q: nat :: !Awaits(t, q);
    hide Exec, Sound;
    if s.cur < t.cur {
      assert !Awaits(t, t.cur - 1);
    }
  }

  /** Without a limit no run ever closes the active file; with one of 2^63 or more, each flush does. */
  lemma {:induction false} NoLimitNoRotation(s: Logger, events: seq<Event>)
    requires Sound(s)
    ensures s.limit == 0 ==> Exec(Started(s), events).log.cur == s.cur
    ensures 0x8000_0000_0000_0000 <= s.limit < 0x1_0000_0000_0000_0000 ==> FlushAll(s).cur == s.cur + 1
  {
    if s.limit == 0 {
      ExecWithoutLimit(Started(s), events);
    }
  }

  lemma {:induction false} ExecWithoutLimit(r: Run, events: seq<Event>)
    requires Sound(r.log) && r.log.limit == 0
    ensures Exec(r, events).log.cur == r.log.cur
    decreases |events|
  {
    if events != [] {
      StepKeepsSound(r, events[0]);
      StepWithoutLimit(r, events[0]);
      hide Sound, Step;
      ExecWithoutLimit(Step(r, events[0]), events[1..]);
    }
  }

  lemma StepWithoutLimit(r: Run, e: Event)
    requires Sound(r.log) && r.log.limit == 0
    ensures Step(r, e).log.cur == r.log.cur && Step(r, e).log.limit == 0
  {
    hide FilesOk, JobsOk, Flatten, Dirty, Rotated, FilesFrom, Without, CleanThenDirty;
  }

  predicate SameRevision(s: Logger, t: Logger, q: nat) {
    && (q in t.closed <==> q in s.closed) && (q in s.closed ==> t.closed[q] == s.closed[q])
    && (q in t.archived <==> q in s.archived) && (q in s.archived ==> t.archived[q] == s.archived[q])
  }

  /** Job f removes or rewrites nothing above f: not the active file, not a file whose job is
      still pending, and `min` does not go back. */
  lemma JobTouchesOnlyOldFiles(s: Logger)
    requires Sound(s) && s.running.Some?
    ensures
      var t := FinishJob(s);
      && t.active == s.active && t.cur == s.cur && t.min >= s.min && t.queue == s.queue
      && (forall q: nat :: q > s.running.value ==> SameRevision(s, t, q))
      && (forall k :: 0 <= k < |s.queue| ==> s.queue[k] in s.closed && SameRevision(s, t, s.queue[k]))
  {
  }
}
