/**
 * The watcher of `watcher.py`: which file-system events are about code files,
 * and the single-slot debounce that turns a burst of such events into one
 * index run. Threads and timers are modelled as discrete steps: starting a
 * timer hands out a fresh timer id, `Fire(t)` is timer `t` running out, and
 * events reach the handler only through the observer.
 */
module Watch {
  import opened Wrappers
  import opened Text
  import opened Paths
  import opened Classifier

  // ---------------------------------------------------------------------
  // _should_ignore and _is_code_file
  // ---------------------------------------------------------------------

  /** `Path(path).parts`: the root `/` of an absolute path, then its components. */
  function Parts(path: string): seq<string>
  {
    (if IsAbsolute(path) then ["/"] else []) + Components(path)
  }

  /** Some part is a skipped directory name or starts with `.` (the test `should_skip_dir` makes). */
  predicate AnySkipped(parts: seq<string>)
  {
    exists k :: 0 <= k < |parts| && ShouldSkipDir(parts[k])
  }

  /**
   * `_should_ignore` as written: some part of the whole event path is
   * skipped, including the parts above the project root.
   */
  predicate IgnoredPath(path: string)
  {
    AnySkipped(Parts(path))
  }

  /**
   * The parts `_should_ignore` is evidently meant to test: those of the path
   * relative to the project root, as the directory pruning of
   * `walk_codebase` does; the whole path for an event outside the project.
   */
  function PartsBelow(project: string, path: string): seq<string>
  {
    match RelativeTo(path, project)
    case Some(rel) => Components(rel)
    case None => Parts(path)
  }

  /** `_should_ignore`, corrected: some part below the project root is skipped. */
  predicate IgnoredBelow(project: string, path: string)
  {
    AnySkipped(PartsBelow(project, path))
  }

  /** `_is_code_file`: not ignored, and the lower-cased suffix is a code extension. */
  predicate CodeFile(path: string)
  {
    !IgnoredPath(path) && Lower(Suffix(path)) in CodeExtensions
  }

  /** `_is_code_file` with the corrected ignore test. */
  predicate CodeFileBelow(project: string, path: string)
  {
    !IgnoredBelow(project, path) && Lower(Suffix(path)) in CodeExtensions
  }

  /** The root part `/` is never a skipped part, so the parts and the components of a path are ignored alike. */
  lemma IgnoredPathComponents(path: string)
    ensures IgnoredPath(path) <==> AnySkipped(Components(path))
  {
    var parts := Parts(path);
    var cs := Components(path);
    var off := |parts| - |cs|;
    assert forall k :: 0 <= k < off ==> parts[k] == "/";
    assert !ShouldSkipDir("/");
    assert forall k :: 0 <= k < |cs| ==> parts[k + off] == cs[k];
    if IgnoredPath(path) {
      var k :| 0 <= k < |parts| && ShouldSkipDir(parts[k]);
      assert ShouldSkipDir(cs[k - off]);
    }
    if AnySkipped(cs) {
      var k :| 0 <= k < |cs| && ShouldSkipDir(cs[k]);
      assert ShouldSkipDir(parts[k + off]);
    }
  }

  /**
   * As written, a project that lies below a skipped directory (such as
   * `~/data/app`, or any directory inside a dot-directory) has every event
   * under it ignored, whatever the file.
   */
  lemma IgnoresWholeProject(project: string, rel: string)
    requires !IsAbsolute(rel)
    requires AnySkipped(Components(project))
    ensures IgnoredPath(JoinPath(project, rel))
  {
    ComponentsOfJoinPath(project, rel);
    IgnoredPathComponents(JoinPath(project, rel));
    var cs := Components(project);
    var k :| 0 <= k < |cs| && ShouldSkipDir(cs[k]);
    assert (cs + Components(rel))[k] == cs[k];
  }

  /**
   * Corrected, an event under the project is ignored exactly when a part of
   * its path below the project root is skipped, whatever directories the
   * project itself lies in.
   */
  lemma IgnoredBelowOnlyRelative(project: string, rel: string)
    requires IsNormalRelative(rel)
    ensures IgnoredBelow(project, JoinPath(project, rel)) <==> AnySkipped(Components(rel))
  {
    RelativeToJoinPath(project, rel);
  }

  /** Some part of `a + b` is skipped iff some part of `a` or of `b` is. */
  lemma AnySkippedAppend(a: seq<string>, b: seq<string>)
    ensures AnySkipped(a + b) <==> AnySkipped(a) || AnySkipped(b)
  {
    if AnySkipped(a + b) {
      var k :| 0 <= k < |a + b| && ShouldSkipDir((a + b)[k]);
      if k >= |a| {
        assert b[k - |a|] == (a + b)[k];
      }
    }
    if AnySkipped(a) {
      var k :| 0 <= k < |a| && ShouldSkipDir(a[k]);
      assert (a + b)[k] == a[k];
    }
    if AnySkipped(b) {
      var k :| 0 <= k < |b| && ShouldSkipDir(b[k]);
      assert (a + b)[k + |a|] == b[k];
    }
  }

  /**
   * The test as written and the corrected one agree on every path under a
   * project none of whose own components is skipped: the two differ only
   * for projects that lie below a skipped directory.
   */
  lemma IgnoredAgreesUnderCleanProject(project: string, rel: string)
    requires IsNormalRelative(rel)
    requires !AnySkipped(Components(project))
    ensures IgnoredPath(JoinPath(project, rel)) <==> IgnoredBelow(project, JoinPath(project, rel))
    ensures CodeFile(JoinPath(project, rel)) <==> CodeFileBelow(project, JoinPath(project, rel))
  {
    ComponentsOfJoinPath(project, rel);
    IgnoredPathComponents(JoinPath(project, rel));
    AnySkippedAppend(Components(project), Components(rel));
    IgnoredBelowOnlyRelative(project, rel);
  }

  /** The components of the concrete project path `/home/dev/data/app`. */
  lemma DataProjectComponents()
    ensures Components("/home/dev/data/app") == ["home", "dev", "data", "app"]
  {
    var pcs := ["home", "dev", "data", "app"];
    assert Join(pcs, '/') == "home/dev/data/app";
    assert Render(true, pcs) == "/home/dev/data/app";
    ComponentsOfRender(true, pcs);
  }

  /** `main.py` is a one-component relative path with suffix `.py`. */
  lemma MainPyFacts()
    ensures IsNormalRelative("main.py") && Components("main.py") == ["main.py"]
    ensures Name("main.py") == "main.py" && Suffix("main.py") == ".py"
  {
    var rel := "main.py";
    assert Render(false, [rel]) == rel;
    ComponentsOfRender(false, [rel]);
    assert LastIndexOf(rel, '.') == Some(4);
  }

  /**
   * A concrete project under `/home/dev/data`: its `main.py` is indexed, but
   * as written a change to it is ignored and schedules no index run; with the
   * corrected test it is a code file.
   */
  lemma DataDirectoryProject()
    ensures ShouldIndexFile(JoinPath("/home/dev/data/app", "main.py"))
    ensures IgnoredPath(JoinPath("/home/dev/data/app", "main.py"))
    ensures !Schedules(Modified(JoinPath("/home/dev/data/app", "main.py"), false))
    ensures CodeFileBelow("/home/dev/data/app", JoinPath("/home/dev/data/app", "main.py"))
  {
    DataProjectComponents();
    MainPyFacts();
    hide Components, Name, Suffix, JoinPath, IgnoredPath, IgnoredBelow, IsNormalRelative;
    var project := "/home/dev/data/app";
    var rel := "main.py";
    var pcs := ["home", "dev", "data", "app"];
    assert ShouldSkipDir(pcs[2]);
    assert !IsAbsolute(rel);
    IgnoresWholeProject(project, rel);
    IgnoredBelowOnlyRelative(project, rel);
    assert !ShouldSkipDir(rel);
    assert !AnySkipped([rel]);
    NameOfJoinPath(project, rel);
    assert Lower(".py") == ".py";
    assert ".py" in CodeExtensions;
    assert rel !in SkipFiles;
  }

  /**
   * For a path that is not ignored, `should_index_file` holds exactly when
   * `_is_code_file` does and the name is not a lock file: the watcher does
   * react to lock files such as `package-lock.json`.
   */
  lemma CodeFileVersusIndexable(path: string)
    requires !IgnoredPath(path)
    ensures ShouldIndexFile(path) <==> CodeFile(path) && Name(path) !in SkipFiles
  {
  }

  // ---------------------------------------------------------------------
  // Events
  // ---------------------------------------------------------------------

  /** A watchdog event: its kind, its source path (and destination, for a move), and whether it concerns a directory. */
  datatype Event =
    | Modified(src: string, isDirectory: bool)
    | Created(src: string, isDirectory: bool)
    | Deleted(src: string, isDirectory: bool)
    | Moved(src: string, dest: string, isDirectory: bool)

  /** Whether the `on_*` handler for the event schedules an index run. */
  predicate Schedules(e: Event)
  {
    !e.isDirectory && (CodeFile(e.src) || (e.Moved? && CodeFile(e.dest)))
  }

  // ---------------------------------------------------------------------
  // CodeChangeHandler
  // ---------------------------------------------------------------------

  /**
   * `CodeChangeHandler`: the project, its one timer slot (`_timer`, the id of
   * the pending timer), the timers that are started and neither cancelled
   * nor run out, the next fresh timer id, and the `on_change` calls so far.
   */
  class CodeChangeHandler {
    const project: string
    var timer: Option<nat>
    var live: set<nat>
    var nextTimer: nat
    var changes: seq<string>

    /** The slot holds the only live timer, if any. */
    predicate Valid()
      reads this
    {
      live == (if timer.Some? then {timer.value} else {})
      && forall t :: t in live ==> t < nextTimer
    }

    constructor (project: string)
      ensures Valid() && this.project == project
      ensures timer == None && changes == [] && nextTimer == 0
    {
      this.project := project;
      timer := None;
      live := {};
      nextTimer := 0;
      changes := [];
    }

    /**
     * `_should_ignore`: walks the parts of the whole event path and answers
     * True at the first skipped one.
     */
    method ShouldIgnore(path: string) returns (ignore: bool)
      ensures ignore <==> IgnoredPath(path)
    {
      var parts := Parts(path);
      for i := 0 to |parts|
        invariant forall k :: 0 <= k < i ==> !ShouldSkipDir(parts[k])
      {
        if parts[i] in SkipDirs || (|parts[i]| > 0 && parts[i][0] == '.') {
          return true;
        }
      }
      return false;
    }

    /** `_is_code_file`. */
    method IsCodeFile(path: string) returns (code: bool)
      ensures code <==> CodeFile(path)
    {
      var ignore := ShouldIgnore(path);
      if ignore {
        return false;
      }
      code := Lower(Suffix(path)) in CodeExtensions;
    }

    /**
     * `_schedule_index`: the pending timer, if any, is cancelled, and a new
     * one is started in the slot, so exactly one timer is pending.
     */
    method ScheduleIndex()
      requires Valid()
      modifies this
      ensures Valid()
      ensures timer == Some(old(nextTimer)) && live == {old(nextTimer)}
      ensures nextTimer == old(nextTimer) + 1 && changes == old(changes)
    {
      if timer.Some? {
        live := live - {timer.value};
      }
      var t := nextTimer;
      nextTimer := nextTimer + 1;
      timer := Some(t);
      live := live + {t};
    }

    /**
     * Timer `t` runs out. A live timer runs `_run_index`: the slot is cleared
     * and `on_change(project)` is called once. A cancelled timer does nothing.
     */
    method Fire(t: nat)
      requires Valid()
      modifies this
      ensures Valid() && nextTimer == old(nextTimer)
      ensures t in old(live) ==> timer == None && changes == old(changes) + [project]
      ensures t !in old(live) ==> timer == old(timer) && live == old(live) && changes == old(changes)
    {
      if t in live {
        live := live - {t};
        timer := None;
        changes := changes + [project];
      }
    }

    /** The `on_modified`, `on_created`, `on_deleted` and `on_moved` handlers. */
    method OnEvent(e: Event)
      requires Valid()
      modifies this
      ensures Valid() && changes == old(changes)
      ensures Schedules(e) ==> timer == Some(old(nextTimer)) && live == {old(nextTimer)} && nextTimer == old(nextTimer) + 1
      ensures !Schedules(e) ==> timer == old(timer) && live == old(live) && nextTimer == old(nextTimer)
    {
      if e.isDirectory {
        return;
      }
      var srcCode := IsCodeFile(e.src);
      var schedule := srcCode;
      if !schedule && e.Moved? {
        schedule := IsCodeFile(e.dest);
      }
      if schedule {
        ScheduleIndex();
      }
    }

    /**
     * A burst of events: afterwards a timer is pending exactly when one was
     * before or some event qualified, it is the only live one, and
     * `on_change` has not been called.
     */
    method OnEvents(events: seq<Event>)
      requires Valid()
      modifies this
      ensures Valid() && changes == old(changes) && |live| <= 1
      ensures timer.Some? <==> old(timer).Some? || exists k :: 0 <= k < |events| && Schedules(events[k])
    {
      hide Schedules;
      for i := 0 to |events|
        invariant Valid() && changes == old(changes)
        invariant timer.Some? <==> old(timer).Some? || exists k :: 0 <= k < i && Schedules(events[k])
      {
        OnEvent(events[i]);
      }
    }

    /** `stop`: the pending timer, if any, is cancelled and the slot emptied; an idle handler is left as it was. */
    method Stop()
      requires Valid()
      modifies this
      ensures Valid() && timer == None && live == {}
      ensures nextTimer == old(nextTimer) && changes == old(changes)
      ensures old(timer).None? ==> live == old(live)
    {
      if timer.Some? {
        live := live - {timer.value};
        timer := None;
      }
    }
  }

  // ---------------------------------------------------------------------
  // Watcher
  // ---------------------------------------------------------------------

  /** The watchdog observer: not created yet, running, or stopped and joined. */
  datatype ObserverState = NoObserver | Running | Stopped

  /** `Watcher`: the project, its observer and its handler (`None` until `start`). */
  class Watcher {
    const project: string
    var observer: ObserverState
    var handler: CodeChangeHandler?

    predicate Valid()
      reads this, handler
    {
      (handler == null <==> observer == NoObserver)
      && (handler != null ==> handler.Valid() && handler.project == project)
    }

    constructor (project: string)
      ensures Valid() && this.project == project && observer == NoObserver && handler == null
    {
      this.project := project;
      observer := NoObserver;
      handler := null;
    }

    /** `start`: a new handler, and an observer that delivers the project's events to it. */
    method Start()
      modifies this
      ensures Valid() && observer == Running && handler != null && fresh(handler)
      ensures handler.timer == None && handler.changes == []
    {
      handler := new CodeChangeHandler(project);
      observer := Running;
    }

    /** The observer delivers an event to the handler; once it is stopped it delivers nothing. */
    method Dispatch(e: Event)
      requires Valid()
      modifies handler
      ensures Valid()
      ensures observer != Running ==> handler == null || (handler.timer == old(handler.timer) && handler.live == old(handler.live))
      ensures observer == Running && Schedules(e) ==>
        handler.timer == Some(old(handler.nextTimer)) && handler.live == {old(handler.nextTimer)}
      ensures observer == Running && !Schedules(e) ==>
        handler.timer == old(handler.timer) && handler.live == old(handler.live)
      ensures handler != null ==> handler.changes == old(handler.changes)
    {
      if observer == Running {
        handler.OnEvent(e);
      }
    }

    /**
     * `stop` as written: the handler's timer is stopped first, and only then
     * the observer; `interleaved` are the events the still-running observer
     * delivers in between.
     */
    method StopAsWritten(interleaved: seq<Event>)
      requires Valid()
      modifies this, handler
      ensures Valid() && observer == (if old(observer) == NoObserver then NoObserver else Stopped)
      ensures handler == old(handler)
      ensures old(observer) == NoObserver ==> handler == null
      ensures handler != null ==> handler.changes == old(handler.changes)
      ensures old(observer) == Stopped ==> handler.timer == None
      ensures old(observer) == Running ==>
        (handler.timer.Some? <==> exists k :: 0 <= k < |interleaved| && Schedules(interleaved[k]))
    {
      if handler != null {
        handler.Stop();
      }
      if observer == Running {
        handler.OnEvents(interleaved);
      }
      if observer != NoObserver {
        observer := Stopped;
      }
    }

    /**
     * `stop`, corrected: the observer is stopped and joined first, so that no
     * event can re-arm the timer, and then the handler's timer is stopped.
     * Events that would arrive afterwards are not delivered.
     */
    method Stop(interleaved: seq<Event>)
      requires Valid()
      modifies this, handler
      ensures Valid() && observer == (if old(observer) == NoObserver then NoObserver else Stopped)
      ensures handler == old(handler)
      ensures old(observer) == NoObserver ==> handler == null
      ensures handler != null ==> handler.timer == None && handler.changes == old(handler.changes)
    {
      if observer != NoObserver {
        observer := Stopped;
      }
      for i := 0 to |interleaved|
        invariant handler == old(handler)
        invariant Valid() && observer != Running
        invariant handler != null ==> handler.changes == old(handler.changes)
      {
        Dispatch(interleaved[i]);
      }
      if handler != null {
        handler.Stop();
      }
    }
  }

  /**
   * As written, a qualifying event delivered while `Watcher.stop` runs
   * leaves a timer pending after `stop` returns, so `on_change` is still
   * called once more for the stopped watcher.
   */
  method StopLeavesTimer(project: string, e: Event) returns (pendingAfterStop: bool, callsAfterStop: seq<string>)
    requires Schedules(e)
    ensures pendingAfterStop
    ensures callsAfterStop == [project]
  {
    hide Schedules;
    var w := new Watcher(project);
    w.Start();
    assert Schedules([e][0]);
    w.StopAsWritten([e]);
    pendingAfterStop := w.handler.timer.Some?;
    w.handler.Fire(w.handler.timer.value);
    callsAfterStop := w.handler.changes;
  }

  /** Corrected, no timer is pending after `stop`, whatever events arrive meanwhile. */
  method StopLeavesNoTimer(project: string, events: seq<Event>) returns (pendingAfterStop: bool)
    ensures !pendingAfterStop
  {
    var w := new Watcher(project);
    w.Start();
    w.Stop(events);
    pendingAfterStop := w.handler.timer.Some?;
  }
}
