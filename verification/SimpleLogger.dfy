/** The logger as the program has it: slots and counters updated in place, a flush that
    visits the slots in two loops, a compression job that prunes in a third. Calls run one at
    a time; RingProtocol interleaves them. */
module SimpleLogger {
  import opened LogFiles
  import opened LoggerModel
  import opened Streams
  import opened Wrappers

  datatype Status = CLEAN | WRITING | DIRTY | FLUSHING

  /** The stream the active file is open on. */
  class OutFile {
    var bytes: string

    constructor (contents: string)
      ensures bytes == contents
    {
      bytes := contents;
    }

    method Write(more: string)
      modifies this
      ensures bytes == old(bytes) + more
    {
      bytes := bytes + more;
    }
  }

  class LogElem {
    var len: nat
    var ctx: string
    var status: Status

    constructor ()
      ensures Valid() && status == CLEAN
    {
      len := 0;
      ctx := seq(MSG_SIZE, i => '\0');
      status := CLEAN;
    }

    ghost predicate Valid()
      reads this
    {
      |ctx| == MSG_SIZE && len <= MSG_SIZE && (status == CLEAN || status == DIRTY)
    }

    /** The slot as a value: its message if it is dirty. */
    ghost function View(): (v: Option<string>)
      requires Valid()
      reads this
      ensures v.Some? ==> |v.value| <= MSG_SIZE
    {
      if status == DIRTY then Some(ctx[..len]) else None
    }

    method NeedToFlush() returns (dirty: bool)
      requires Valid()
      ensures dirty == View().Some?
    {
      dirty := status == DIRTY;
    }

    method Available() returns (free: bool)
      requires Valid()
      ensures free
    {
      free := status == CLEAN || status == DIRTY;
    }

    method Write(n: nat, msg: string) returns (rc: int)
      requires Valid() && n == |msg|
      modifies this
      ensures Valid()
      ensures old(View()).None? ==> rc == 0 && View() == Some(Stored(msg))
      ensures old(View()).None? ==> View() == Some(msg[..if n <= 4096 then n else 4096])
      ensures old(View()).Some? ==> rc == -1 && View() == old(View())
    {
      if status != CLEAN {
        return -1;
      }
      status := WRITING;
      len := if n > MSG_SIZE then MSG_SIZE else n;
      ctx := msg[..len] + ctx[len..];
      assert ctx[..len] == msg[..len];
      status := DIRTY;
      return 0;
    }

    method Flush(fs: OutFile) returns (rc: int)
      requires Valid()
      modifies this, fs
      ensures Valid() && View() == None
      ensures fs.bytes == old(fs.bytes) + (if old(View()).Some? then old(View()).value else "")
      ensures rc == if old(View()).Some? then 0 else -1
    {
      if status != DIRTY {
        return -1;
      }
      status := FLUSHING;
      fs.Write(ctx[..len]);
      status := CLEAN;
      return 0;
    }
  }

  class SimpleLogger {
    const logs: seq<LogElem>
    const fs: OutFile
    const maxLogFileSize: nat
    const managed: bool
    const maxLogFiles: nat
    var cursor: nat
    var curRevnum: nat
    var minRevnum: nat
    var closed: map<nat, string>
    var archived: map<nat, string>
    var pending: seq<nat>
    var running: Option<nat>
    var numCompJobs: int
    var curLogLevel: int
    /** Whether the stream could be opened. */
    var isOpen: bool
    /** Whether another call is inside a flush. */
    var mutexHeld: bool

    /** A logger over the files a scan of its directory found: the newest revision is opened
        for appending, the ring is empty and no job is pending. */
    constructor (numElems: nat, sizeLimit: nat, fileLimit: nat, hasManager: bool,
                 older: map<nat, string>, archives: map<nat, string>, newest: string, min: nat, cur: nat)
      requires numElems > 0
      ensures Valid() && fresh(fs) && (forall i :: 0 <= i < |logs| ==> fresh(logs[i]))
      ensures View() == Logger(AllClean(numElems), 0, newest, older, archives, cur, min, [], None, 0,
                               sizeLimit, fileLimit, hasManager)
      ensures curLogLevel == 4 && isOpen && !mutexHeld
    {
      var elems := NewElems(numElems);
      logs := elems;
      fs := new OutFile(newest);
      maxLogFileSize, maxLogFiles, managed := sizeLimit, fileLimit, hasManager;
      cursor, curRevnum, minRevnum := 0, cur, min;
      closed, archived := older, archives;
      pending, running, numCompJobs := [], None, 0;
      curLogLevel := 4;
      isOpen, mutexHeld := true, false;
      new;
      assert Slots() == AllClean(numElems);
    }

    static method NewElems(n: nat) returns (elems: seq<LogElem>)
      ensures |elems| == n
      ensures forall i :: 0 <= i < n ==> fresh(elems[i]) && elems[i].Valid() && elems[i].View() == None
      ensures forall i, j :: 0 <= i < j < n ==> elems[i] != elems[j]
    {
      elems := [];
      while |elems| < n
        invariant |elems| <= n
        invariant forall i :: 0 <= i < |elems| ==> fresh(elems[i]) && elems[i].Valid() && elems[i].View() == None
        invariant forall i, j :: 0 <= i < j < |elems| ==> elems[i] != elems[j]
      {
        var elem := new LogElem();
        elems := elems + [elem];
      }
    }

    static ghost predicate Distinct(elems: seq<LogElem>) {
      forall i, j :: 0 <= i < j < |elems| ==> elems[i] != elems[j]
    }

    static lemma OthersDiffer(elems: seq<LogElem>, i: nat)
      requires Distinct(elems) && i < |elems|
      ensures forall k :: 0 <= k < |elems| && k != i ==> elems[k] != elems[i]
    {
    }

    ghost predicate Valid()
      reads this, logs
    {
      && cursor < |logs|
      && Distinct(logs)
      && ElemsValid(logs)
    }

    static ghost predicate ElemsValid(elems: seq<LogElem>)
      reads elems
    {
      forall i :: 0 <= i < |elems| ==> elems[i].Valid()
    }

    static ghost function SlotsOf(elems: seq<LogElem>): (slots: seq<Option<string>>)
      requires ElemsValid(elems)
      reads elems
      ensures |slots| == |elems|
    {
      seq(|elems|, i requires 0 <= i < |elems| reads elems requires ElemsValid(elems) => elems[i].View())
    }

    ghost function Slots(): (slots: seq<Option<string>>)
      requires Valid()
      reads this, logs
      ensures |slots| == |logs|
    {
      SlotsOf(logs)
    }

    ghost function View(): Logger
      requires Valid()
      reads this, fs, logs
    {
      Logger(Slots(), cursor, fs.bytes, closed, archived, curRevnum, minRevnum, pending, running, numCompJobs,
             maxLogFileSize, maxLogFiles, managed)
    }

    /** Slot by slot, in array order, the flushes from `from` up to, not including, `to`. */
    method FlushRange(from: nat, to: nat)
      requires Valid() && from <= to <= |logs|
      modifies fs, logs
      ensures Valid()
      ensures fs.bytes == old(fs.bytes) + Flatten(Dirty(old(Slots())[from..to]))
      ensures forall k :: 0 <= k < |logs| ==> logs[k].View() == if from <= k < to then None else old(logs[k].View())
    {
      hide Distinct, Flatten, Dirty, LogElem.Valid;
      ghost var before := Slots();
      NothingDirty(before, from);
      var i := from;
      while i < to
        invariant from <= i <= to && Valid()
        invariant fs.bytes == old(fs.bytes) + Flatten(Dirty(before[from..i]))
        invariant forall k :: 0 <= k < |logs| ==> logs[k].View() == if from <= k < i then None else before[k]
      {
        FlushElem(i);
        assert fs.bytes == old(fs.bytes) + Flatten(Dirty(before[from..i + 1])) by {
          DirtyGrows(before, from, i);
          Regroup(old(fs.bytes), Flatten(Dirty(before[from..i])), if before[i].Some? then before[i].value else "");
        }
        i := i + 1;
      }
    }

    method FlushElem(i: nat)
      requires Valid() && i < |logs|
      modifies fs, logs[i]
      ensures Valid() && logs[i].View() == None
      ensures forall k :: 0 <= k < |logs| && k != i ==> logs[k].View() == old(logs[k].View())
      ensures fs.bytes == old(fs.bytes) + (if old(logs[i].View()).Some? then old(logs[i].View()).value else "")
    {
      hide Distinct;
      OthersDiffer(logs, i);
      var rc := logs[i].Flush(fs);
    }

    static lemma NothingDirty(slots: seq<Option<string>>, from: nat)
      requires from <= |slots|
      ensures Flatten(Dirty(slots[from..from])) == ""
    {
    }

    static lemma DirtyGrows(slots: seq<Option<string>>, from: nat, i: nat)
      requires from <= i < |slots|
      ensures Flatten(Dirty(slots[from..i + 1]))
           == Flatten(Dirty(slots[from..i])) + (if slots[i].Some? then slots[i].value else "")
    {
      var part := slots[from..i];
      assert slots[from..i + 1] == part + [slots[i]];
      assert (part + [slots[i]])[..|part|] == part;
      if slots[i].Some? {
        FlattenSnoc(Dirty(part), slots[i].value);
      }
    }

    /** Both loops of a flush: the slots from `start` on, then those before it. */
    method FlushCircular(start: nat)
      requires Valid() && start < |logs|
      modifies fs, logs
      ensures Valid()
      ensures fs.bytes == old(fs.bytes) + Flatten(Dirty(Rotated(old(Slots()), start)))
      ensures Slots() == AllClean(|logs|) && logs[start].View() == None
    {
      ghost var before := Slots();
      FlushRange(start, |logs|);
      ghost var half := Slots();
      FlushRange(0, start);
      assert half[0..start] == before[..start];
      assert before[start..|logs|] == before[start..];
      DirtyAppend(before[start..], before[..start]);
      FlattenAppend(Dirty(before[start..]), Dirty(before[..start]));
      Regroup(old(fs.bytes), Flatten(Dirty(before[start..])), Flatten(Dirty(before[..start])));
    }

    /** Another flush under way makes this one give up at once. */
    method Flush(start: nat) returns (flushed: bool)
      requires Valid() && start < |logs|
      modifies `curRevnum, `closed, `pending, `numCompJobs, fs, logs
      ensures Valid() && flushed == !mutexHeld
      ensures !flushed ==> View() == old(View())
      ensures flushed ==> View() == LoggerModel.Flush(old(View()), start) && logs[start].View() == None
    {
      if mutexHeld {
        return false;
      }
      FlushCircular(start);
      if maxLogFileSize != 0 && |fs.bytes| > AsInt64(maxLogFileSize) {
        NextFile();
      }
      return true;
    }

    /** Exceeded limit, make a new file, and register the old one for compression. */
    method NextFile()
      requires Valid()
      modifies `curRevnum, `closed, `pending, `numCompJobs, fs
      ensures Valid()
      ensures View() == NextRevision(old(View()))
    {
      hide Distinct, ElemsValid, SlotsOf;
      curRevnum := curRevnum + 1;
      closed := closed[curRevnum - 1 := fs.bytes];
      fs.bytes := if curRevnum in closed then closed[curRevnum] else "";
      closed := closed - {curRevnum};
      if managed {
        numCompJobs := numCompJobs + 1;
        pending := pending + [curRevnum - 1];
      }
    }

    method FlushAll()
      requires Valid()
      modifies `curRevnum, `closed, `pending, `numCompJobs, fs, logs
      ensures Valid()
      ensures View() == if mutexHeld then old(View()) else LoggerModel.FlushAll(old(View()))
    {
      var startPos := cursor;
      var flushed := Flush(startPos);
    }

    /** Calls run one at a time: with the mutex held, a put on a dirty slot would wait for ever. */
    method Put(level: int, msg: string)
      requires Valid() && !mutexHeld
      modifies `cursor, `curRevnum, `closed, `pending, `numCompJobs, fs, logs
      ensures Valid()
      ensures View() == if level > curLogLevel || !isOpen then old(View()) else LoggerModel.Put(old(View()), msg)
    {
      if level > curLogLevel {
        return;
      }
      if !isOpen {
        return;
      }
      TakeTurn(msg);
    }

    /** Claim the slot at the cursor, make sure it is clean, write. */
    method TakeTurn(msg: string)
      requires Valid() && !mutexHeld
      modifies `cursor, `curRevnum, `closed, `pending, `numCompJobs, fs, logs
      ensures Valid()
      ensures View() == LoggerModel.Put(old(View()), msg)
    {
      hide LoggerModel.Flush, Distinct, ElemsValid, SlotsOf, Stored;
      var num := |logs|;
      var claimed := cursor;
      cursor := (claimed + 1) % num;
      ghost var moved := View();
      assert moved == old(View()).(cursor := (claimed + 1) % num);
      MakeClean(claimed);
      ghost var clean := View();
      WriteSlot(claimed, msg);
      assert View() == clean.(slots := clean.slots[claimed := Some(Stored(msg))]);
    }

    /** The claimed slot is available; if it is still dirty, flush from it on. */
    method MakeClean(claimed: nat)
      requires Valid() && claimed < |logs| && !mutexHeld
      modifies `curRevnum, `closed, `pending, `numCompJobs, fs, logs
      ensures Valid()
      ensures View() == if old(View()).slots[claimed].Some? then LoggerModel.Flush(old(View()), claimed) else old(View())
      ensures logs[claimed].View().None?
    {
      var ll := logs[claimed];
      assert Slots()[claimed] == ll.View();
      hide LoggerModel.Flush, Distinct;
      var free := ll.Available();
      var dirty := ll.NeedToFlush();
      if dirty {
        var flushed := Flush(claimed);
      }
    }

    method WriteSlot(i: nat, msg: string)
      requires Valid() && i < |logs| && logs[i].View().None?
      modifies logs[i]
      ensures Valid() && Slots() == old(Slots())[i := Some(Stored(msg))]
    {
      hide Distinct, Stored;
      OthersDiffer(logs, i);
      var rc := logs[i].Write(|msg|, msg);
    }

    /** The compression worker's look at the queue. */
    method TakeJob()
      requires Valid()
      modifies `pending, `running
      ensures Valid() && View() == LoggerModel.TakeJob(old(View()))
    {
      if running.None? && pending != [] {
        running := Some(pending[0]);
        pending := pending[1..];
      }
    }

    /** Remove previous log files up to and including `upto`. */
    method RemoveUpTo(upto: nat)
      modifies `closed, `archived, `minRevnum
      ensures closed == Without(old(closed), old(minRevnum), upto)
      ensures archived == Without(old(archived), old(minRevnum), upto)
      ensures minRevnum == if old(minRevnum) <= upto then upto + 1 else old(minRevnum)
    {
      ghost var first := minRevnum;
      var ii := minRevnum;
      while ii <= upto
        invariant first <= ii && minRevnum == ii && (ii <= upto + 1 || ii == first)
        invariant closed == map r | r in old(closed) && !(first <= r < ii) :: old(closed)[r]
        invariant archived == map r | r in old(archived) && !(first <= r < ii) :: old(archived)[r]
      {
        closed := closed - {ii};
        archived := archived - {ii};
        minRevnum := ii + 1;
        ii := ii + 1;
      }
    }

    /** Archive one closed file, then remove what the file limit no longer keeps. */
    method DoCompression(fileNum: nat)
      requires Valid()
      modifies `closed, `archived, `minRevnum, `numCompJobs
      ensures Valid() && View() == Compress(old(View()), fileNum)
    {
      hide Archive, Without, Distinct, ElemsValid, SlotsOf;
      ArchiveFile(fileNum);
      if maxLogFiles != 0 && fileNum >= maxLogFiles {
        RemoveUpTo(fileNum - maxLogFiles);
      }
      numCompJobs := numCompJobs - 1;
    }

    /** tar, then rm of the plain file. */
    method ArchiveFile(fileNum: nat)
      requires Valid()
      modifies `closed, `archived
      ensures Valid() && View() == Archive(old(View()), fileNum)
    {
      if fileNum in closed {
        archived := archived[fileNum := closed[fileNum]];
      }
      closed := closed - {fileNum};
    }

    /** One round of the compression worker that finds a job running. */
    method FinishJob()
      requires Valid()
      modifies `closed, `archived, `minRevnum, `numCompJobs, `running
      ensures Valid() && View() == LoggerModel.FinishJob(old(View()))
    {
      if running.Some? {
        DoCompression(running.value);
        running := None;
      }
    }
  }
}
