/** A logger that is stopped at any point of a run and started again picks up exactly where
    the files say it was. */
module LoggerRestart {
  import opened LoggerModel
  import opened RevisionNames
  import opened Wrappers

  /** The listing shows the files of s, in any order, and nothing else the scan would take for
      a log file of its own. */
  ghost predicate Lists(base: string, dir: seq<Entry>, s: Logger) {
    && (forall r: nat :: LogFile(r, false) in dir <==> r == s.cur || r in s.closed)
    && (forall r: nat :: LogFile(r, true) in dir <==> r in s.archived)
    && (forall e :: e in dir && e.Other? ==> !Contains(e.name, base))
  }

  lemma ListingIsLoggerDirectory(base: string, dir: seq<Entry>, s: Logger)
    requires Sound(s) && Lists(base, dir, s) && Readable(s.cur)
    ensures LoggerDirectory(base, dir, s.cur)
  {
    hide Contains;
    forall e | e in dir && e.LogFile? ensures e.rev <= s.cur && (e.archive ==> e.rev < s.cur) {
      assert e == LogFile(e.rev, e.archive);
      if e.archive {
        assert e.rev in s.archived;
      }
    }
    assert LogFile(s.cur, false) in dir;
  }

  /** The scan of a state's files finds its minRevnum and its curRevnum. */
  lemma {:induction false} ScanFindsState(base: string, dir: seq<Entry>, s: Logger)
    requires GoodBase(base) && Sound(s) && Lists(base, dir, s) && Readable(s.cur)
    ensures Scan(Names(base, dir), base).min == s.min && Scan(Names(base, dir), base).max == s.cur
  {
    ListingIsLoggerDirectory(base, dir, s);
    ScanRecovers(base, dir, s.cur);
    hide Scan, Contains, GoodBase;
    var f := Scan(Names(base, dir), base);
    var archive :| LogFile(f.min, archive) in dir;
    if s.min < s.cur {
      assert s.min in s.closed || s.min in s.archived;
      assert LogFile(s.min, false) in dir || LogFile(s.min, true) in dir;
    } else {
      assert LogFile(s.cur, false) in dir;
    }
  }

  /** The logger a restart builds: the ring and the job queue are gone, the files are not. */
  function Restarted(s: Logger, min: nat, cur: nat): Logger {
    s.(slots := AllClean(|s.slots|), cursor := 0, min := min, cur := cur, queue := [], running := None, jobs := 0)
  }

  /** Stopped anywhere in any run, the logger restarts with its files, its oldest and its
      active revision unchanged, and is fit for the next run. */
  lemma {:induction false} RestartAfterAnyRun(s: Logger, events: seq<Event>, base: string, dir: seq<Entry>)
    requires Sound(s) && GoodBase(base)
    requires Lists(base, dir, Exec(Started(s), events).log) && Readable(Exec(Started(s), events).log.cur)
    ensures
      var t := Exec(Started(s), events).log;
      var f := Scan(Names(base, dir), base);
      && f.min == t.min == Oldest(s.min, s.maxFiles, Exec(Started(s), events).done)
      && f.max == t.cur
      && Sound(Restarted(t, f.min, f.max))
  {
    var t := Exec(Started(s), events).log;
    ScanFindsState(base, dir, t);
    ExecKeepsRetention(Started(s), events, s.min);
    ExecKeepsShape(Started(s), events);
    hide Scan, Exec, GoodBase, Lists;
    assert Sound(Restarted(t, t.min, t.cur));
  }
}
